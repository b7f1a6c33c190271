/** The client's form schemas for login, signup and creating a book. A
    schema check yields the list of issues it found, in the order the rules
    are declared; every rule of every field is checked, so one field can
    report several issues. A form is accepted when the list is empty. The
    email format check is the parameter `isEmail`. */
module Validation {
  import opened Common
  import BookRoutes

  datatype Issue = Issue(field: string, message: string)

  const InvalidEmail := "Please enter a valid email"
  const EmailRequired := "Email is required"
  const PasswordTooShort := "Password must be at least 6 characters"
  const PasswordRequired := "Password is required"
  const NameTooShort := "Name must be at least 2 characters"
  const NameRequired := "Name is required"
  const TitleRequired := "Title is required"
  const CaptionTooShort := "Description must be at least 10 characters"
  const RatingTooLow := "Number must be greater than or equal to 1"
  const RatingTooHigh := "Number must be less than or equal to 5"

  /** One rule: the issue when the condition fails, nothing otherwise. */
  function Rule(ok: bool, field: string, message: string): (r: seq<Issue>)
    ensures r == [] <==> ok
    ensures !ok ==> r == [Issue(field, message)]
  {
    if ok then [] else [Issue(field, message)]
  }

  /** The email field of login and signup: a valid email, non-empty. */
  function EmailIssues(email: string, isEmail: string -> bool): (r: seq<Issue>)
    ensures r == [] <==> isEmail(email) && |email| >= 1
    ensures Issue("email", InvalidEmail) in r <==> !isEmail(email)
    ensures Issue("email", EmailRequired) in r <==> |email| < 1
  {
    Rule(isEmail(email), "email", InvalidEmail) + Rule(|email| >= 1, "email", EmailRequired)
  }

  /** The password field of login and signup: at least 6 characters,
      non-empty. */
  function PasswordIssues(password: string): (r: seq<Issue>)
    ensures r == [] <==> |password| >= 6
    ensures Issue("password", PasswordTooShort) in r <==> |password| < 6
    ensures Issue("password", PasswordRequired) in r <==> |password| < 1
  {
    Rule(|password| >= 6, "password", PasswordTooShort) + Rule(|password| >= 1, "password", PasswordRequired)
  }

  /** `loginSchema`. */
  function LoginIssues(email: string, password: string, isEmail: string -> bool): (r: seq<Issue>)
    ensures r == [] <==> isEmail(email) && |email| >= 1 && |password| >= 6
  {
    EmailIssues(email, isEmail) + PasswordIssues(password)
  }

  /** `signupSchema`. */
  function SignupIssues(username: string, email: string, password: string, isEmail: string -> bool): (r: seq<Issue>)
    ensures r == [] <==> |username| >= 2 && isEmail(email) && |email| >= 1 && |password| >= 6
    ensures Issue("username", NameTooShort) in r <==> |username| < 2
    ensures Issue("username", NameRequired) in r <==> |username| < 1
  {
    var nameIssues := Rule(|username| >= 2, "username", NameTooShort) + Rule(|username| >= 1, "username", NameRequired);
    assert forall i :: 0 <= i < |EmailIssues(email, isEmail) + PasswordIssues(password)| ==>
      (EmailIssues(email, isEmail) + PasswordIssues(password))[i].field != "username";
    nameIssues + EmailIssues(email, isEmail) + PasswordIssues(password)
  }

  /** `createBookSchema`, with the rating as a whole number. */
  function CreateBookIssues(title: string, caption: string, rating: int): (r: seq<Issue>)
    ensures r == [] <==> |title| >= 1 && |caption| >= 10 && 1 <= rating <= 5
    ensures Issue("title", TitleRequired) in r <==> |title| < 1
    ensures Issue("caption", CaptionTooShort) in r <==> |caption| < 10
    ensures Issue("rating", RatingTooLow) in r <==> rating < 1
    ensures Issue("rating", RatingTooHigh) in r <==> rating > 5
  {
    Rule(|title| >= 1, "title", TitleRequired)
    + Rule(|caption| >= 10, "caption", CaptionTooShort)
    + Rule(rating >= 1, "rating", RatingTooLow)
    + Rule(rating <= 5, "rating", RatingTooHigh)
  }

  /** The "required" rule of a password never fires alone: a password that
      is long enough is non-empty, so the first rule already covers it. */
  lemma PasswordRequiredImpliedByMinimum(password: string)
    ensures Issue("password", PasswordRequired) in PasswordIssues(password) ==>
      Issue("password", PasswordTooShort) in PasswordIssues(password)
    ensures |PasswordIssues(password)| == if |password| == 0 then 2 else if |password| < 6 then 1 else 0
  {
  }

  /** A rating of 0 or 6 is refused, each with its message. */
  lemma RatingBoundsExamples(title: string, caption: string)
    ensures CreateBookIssues(title, caption, 0) != []
    ensures CreateBookIssues(title, caption, 6) != []
    ensures Issue("rating", RatingTooLow) in CreateBookIssues(title, caption, 0)
    ensures Issue("rating", RatingTooHigh) in CreateBookIssues(title, caption, 6)
  {
  }

  /** A book the client's schema accepts, sent with a non-empty image,
      passes the server's required-field check. */
  lemma AcceptedBookPassesServerCheck(title: string, caption: string, rating: int, image: string)
    requires CreateBookIssues(title, caption, rating) == []
    requires image != ""
    ensures BookRoutes.HasRequiredFields(BookRoutes.CreateBody(Some(title), Some(caption), Some(image), Some(rating)))
  {
  }
}
