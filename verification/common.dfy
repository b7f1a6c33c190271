/** Values shared by the server and the mobile client: optional values,
    users, and the two pieces of JavaScript string behaviour the source
    relies on (`String.prototype.split` with a one-character separator and
    the decimal rendering of a number inside a template literal). */
module Common {

  datatype Option<+T> = None | Some(value: T)

  datatype Result<+T, +E> = Ok(value: T) | Err(error: E)

  /** A user profile as both sides see it (the password hash never leaves
      the server's user lookup). Ids are compared as strings. */
  datatype User = User(id: string, username: string, email: string, profileImage: string)

  /** JavaScript truthiness of an optional string: `undefined`, `null` and
      `""` are falsy. */
  predicate TruthyString(s: Option<string>)
  {
    s.Some? && s.value != ""
  }

  // ---------------------------------------------------------------------
  // `s.split(sep)` for a one-character separator
  // ---------------------------------------------------------------------

  /** The fields of `s` between occurrences of `sep`, as JavaScript's
      `split` returns them: never empty, `""` splits into `[""]`, and two
      adjacent separators give an empty field. */
  function Split(s: string, sep: char): (parts: seq<string>)
    ensures |parts| >= 1
    ensures forall i :: 0 <= i < |parts| ==> sep !in parts[i]
    decreases |s|
  {
    if |s| == 0 then [""]
    else
      var rest := Split(s[1..], sep);
      if s[0] == sep then [""] + rest
      else [[s[0]] + rest[0]] + rest[1..]
  }

  /** `parts.join(sep)`: the inverse of `Split`. */
  function Join(parts: seq<string>, sep: char): string
    requires |parts| >= 1
    decreases |parts|
  {
    if |parts| == 1 then parts[0] else parts[0] + [sep] + Join(parts[1..], sep)
  }

  /** Splitting and joining again gives back the original string. */
  lemma {:induction false} JoinSplit(s: string, sep: char)
    ensures Join(Split(s, sep), sep) == s
    decreases |s|
  {
    if |s| > 0 {
      var rest := Split(s[1..], sep);
      JoinSplit(s[1..], sep);
      if s[0] == sep {
        assert Split(s, sep) == [""] + rest;
        assert s == [sep] + s[1..];
      } else if |rest| == 1 {
        assert Split(s, sep) == [[s[0]] + rest[0]];
        assert s == [s[0]] + s[1..];
      } else {
        var parts := Split(s, sep);
        assert parts == [[s[0]] + rest[0]] + rest[1..];
        assert parts[1..] == rest[1..];
        assert Join(rest, sep) == rest[0] + [sep] + Join(rest[1..], sep);
        assert s == [s[0]] + s[1..];
      }
    }
  }

  /** Joining separator-free fields and splitting again gives back the
      fields. */
  lemma {:induction false} SplitJoin(parts: seq<string>, sep: char)
    requires |parts| >= 1
    requires forall i :: 0 <= i < |parts| ==> sep !in parts[i]
    ensures Split(Join(parts, sep), sep) == parts
    decreases |parts|, |parts[0]|
  {
    var head := parts[0];
    if |head| > 0 {
      // peel one character off the first field
      var parts' := [head[1..]] + parts[1..];
      assert sep !in parts'[0];
      assert forall i :: 1 <= i < |parts'| ==> parts'[i] == parts[i];
      SplitJoin(parts', sep);
      JoinFirst(parts, parts', sep);
      var s := Join(parts, sep);
      assert s[0] == head[0] && s[1..] == Join(parts', sep);
      assert Split(s, sep) == [[head[0]] + head[1..]] + parts'[1..];
      assert [head[0]] + head[1..] == head;
      assert parts'[1..] == parts[1..];
    } else if |parts| > 1 {
      var tail := parts[1..];
      SplitJoin(tail, sep);
      var s := Join(parts, sep);
      assert s == [sep] + Join(tail, sep);
      assert s[1..] == Join(tail, sep);
      assert Split(s, sep) == [""] + tail;
    }
  }

  /** Helper for SplitJoin: dropping the first character of the first field
      drops the first character of the joined string. */
  lemma JoinFirst(parts: seq<string>, parts': seq<string>, sep: char)
    requires |parts| >= 1 && |parts[0]| > 0
    requires parts' == [parts[0][1..]] + parts[1..]
    ensures |Join(parts, sep)| > 0
    ensures Join(parts, sep)[0] == parts[0][0]
    ensures Join(parts, sep)[1..] == Join(parts', sep)
  {
    if |parts| > 1 {
      assert parts'[1..] == parts[1..];
    }
  }

  /** There is a second field exactly when the separator occurs. */
  lemma {:induction false} SplitHasSecondField(s: string, sep: char)
    ensures |Split(s, sep)| >= 2 <==> sep in s
    decreases |s|
  {
    if |s| > 0 {
      SplitHasSecondField(s[1..], sep);
      assert sep in s <==> s[0] == sep || sep in s[1..] by {
        assert s == [s[0]] + s[1..];
      }
    }
  }

  /** The first field is the longest separator-free prefix. */
  lemma {:induction false} FirstField(s: string, sep: char)
    ensures var r := Split(s, sep)[0];
      |r| <= |s| && r == s[..|r|] && sep !in r && (|r| < |s| ==> s[|r|] == sep)
    decreases |s|
  {
    if |s| > 0 && s[0] != sep {
      FirstField(s[1..], sep);
    }
  }

  /** The last field is the longest separator-free suffix. */
  lemma {:induction false} LastField(s: string, sep: char)
    ensures var parts := Split(s, sep); var r := parts[|parts| - 1];
      |r| <= |s| && r == s[|s| - |r|..] && sep !in r && (|r| < |s| ==> s[|s| - |r| - 1] == sep)
    decreases |s|
  {
    if |s| > 0 {
      var rest := Split(s[1..], sep);
      LastField(s[1..], sep);
      if s[0] != sep && |rest| == 1 {
        JoinSplit(s[1..], sep);
        assert Split(s, sep) == [[s[0]] + s[1..]];
        assert [s[0]] + s[1..] == s;
      } else {
        // with more than one field in s[1..], the last cannot be all of it
        SplitHasSecondField(s[1..], sep);
        var parts := Split(s, sep);
        var r := rest[|rest| - 1];
        assert parts[|parts| - 1] == r;
        assert s[1..][|s| - 1 - |r|..] == s[|s| - |r|..];
        if |r| < |s| - 1 {
          assert s[1..][|s| - 1 - |r| - 1] == s[|s| - |r| - 1];
        }
      }
    }
  }

  /** The fields after the first are the fields of the text after the first
      separator. */
  lemma {:induction false} SplitAfterFirst(s: string, sep: char)
    requires |Split(s, sep)| >= 2
    ensures var i := |Split(s, sep)[0]|;
      i < |s| && s[i] == sep && Split(s, sep)[1..] == Split(s[i + 1..], sep)
    decreases |s|
  {
    var rest := Split(s[1..], sep);
    if s[0] != sep {
      SplitAfterFirst(s[1..], sep);
      assert s[1..][|rest[0]| + 1..] == s[|rest[0]| + 2..];
    }
  }

  // ---------------------------------------------------------------------
  // Decimal rendering of a number (`${n}` for a non-negative integer)
  // ---------------------------------------------------------------------

  predicate IsDigit(c: char)
  {
    '0' <= c <= '9'
  }

  function DigitValue(c: char): (d: nat)
    requires IsDigit(c)
    ensures d < 10
  {
    c as int - '0' as int
  }

  function DigitChar(d: nat): (c: char)
    requires d < 10
    ensures IsDigit(c) && DigitValue(c) == d
  {
    (d + '0' as int) as char
  }

  /** The decimal digits of `n`, most significant first, without leading
      zeros. */
  function Decimal(n: nat): (s: string)
    ensures |s| >= 1
    ensures forall i :: 0 <= i < |s| ==> IsDigit(s[i])
    ensures |s| > 1 ==> s[0] != '0'
  {
    if n < 10 then [DigitChar(n)] else Decimal(n / 10) + [DigitChar(n % 10)]
  }

  /** The value of a string of decimal digits. */
  function ParseDecimal(s: string): nat
    requires forall i :: 0 <= i < |s| ==> IsDigit(s[i])
  {
    if s == [] then 0
    else ParseDecimal(s[..|s| - 1]) * 10 + DigitValue(s[|s| - 1])
  }

  /** Reading back the rendered number gives the number. */
  lemma {:induction false} ParseDecimalOfDecimal(n: nat)
    ensures ParseDecimal(Decimal(n)) == n
  {
    if n >= 10 {
      var s := Decimal(n);
      assert s[..|s| - 1] == Decimal(n / 10);
      ParseDecimalOfDecimal(n / 10);
    }
  }
}
