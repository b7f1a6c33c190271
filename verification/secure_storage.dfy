/** The app-scoped credential store holding the auth token under one key.
    The store itself is a device service; the model keeps only what the
    rest of the client observes: one slot that is empty or holds a token. */
module SecureStorage {
  import opened Common

  class TokenSlot {
    var token: Option<string>

    /** An install with nothing stored yet. */
    constructor ()
      ensures token == None
    {
      token := None;
    }

    /** `saveToken`: the slot holds exactly the given token afterwards. */
    method Save(t: string)
      modifies this
      ensures token == Some(t)
    {
      token := Some(t);
    }

    /** `getToken`: reads the slot and changes nothing. */
    method Get() returns (t: Option<string>)
      ensures t == token
    {
      t := token;
    }

    /** `deleteToken`: the slot is empty afterwards. */
    method Delete()
      modifies this
      ensures token == None
    {
      token := None;
    }
  }
}
