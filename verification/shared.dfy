/**
 * Shared vocabulary of the order-processing kernel: the two exception kinds,
 * the result shapes every operation returns, and the few Java string
 * primitives the validators rely on (blank, trim, upper case).
 */
module Shared {

  /** The two exception classes the kernel throws: IllegalArgumentException
      (malformed input) and BusinessRuleException (a rule is violated). */
  datatype ErrorKind = Validation | BusinessRule

  datatype Option<+T> = None | Some(value: T)

  /** Identifiers: opaque strings compared by value. Fresh identifiers
      (random UUIDs in the source) are supplied by the caller. */
  type CustomerId = string
  type ProductId = string
  type OrderId = string

  /** A value-returning call that either returns or throws. Used for
      factories, value objects and transactional application services,
      whose failure leaves nothing behind. */
  datatype Result<+T> = Ok(value: T) | Err(kind: ErrorKind)

  /** A call on a mutable aggregate: the aggregate's state once the call is
      over, and the exception it threw, if any. A thrown call may still have
      changed the state when the source mutates before it throws. */
  datatype Outcome<+T> = Returned(state: T) | Threw(kind: ErrorKind, state: T)

  /** A check that mutates nothing and either passes or throws. */
  datatype Verdict = Pass | Fail(kind: ErrorKind)

  /** Java's `trim` removes exactly the characters at or below U+0020. */
  predicate IsSpace(c: char) {
    c <= ' '
  }

  /** `s == null || s.trim().isEmpty()`; a null string is not distinguished
      from a blank one because every validator treats them alike. */
  predicate Blank(s: string) {
    forall i :: 0 <= i < |s| ==> IsSpace(s[i])
  }

  /** Drop leading spaces. */
  function TrimStart(s: string): (t: string)
    ensures |t| <= |s| && t == s[|s| - |t|..]
    ensures forall i :: 0 <= i < |s| - |t| ==> IsSpace(s[i])
    ensures t != [] ==> !IsSpace(t[0])
    decreases |s|
  {
    if s != [] && IsSpace(s[0]) then TrimStart(s[1..]) else s
  }

  /** Drop trailing spaces. */
  function TrimEnd(s: string): (t: string)
    ensures |t| <= |s| && t == s[..|t|]
    ensures forall i :: |t| <= i < |s| ==> IsSpace(s[i])
    ensures t != [] ==> !IsSpace(t[|t| - 1])
    decreases |s|
  {
    if s != [] && IsSpace(s[|s| - 1]) then TrimEnd(s[..|s| - 1]) else s
  }

  /** Java's `String.trim`. */
  function Trim(s: string): string {
    TrimEnd(TrimStart(s))
  }

  /** The trimmed string is a slice of the input that starts and ends with a
      non-space, is empty exactly when the input is blank, and differs from
      the input only by spaces cut from its two ends. */
  lemma TrimProperties(s: string)
    ensures |Trim(s)| <= |s|
    ensures Trim(s) == [] <==> Blank(s)
    ensures Trim(s) != [] ==> !IsSpace(Trim(s)[0]) && !IsSpace(Trim(s)[|Trim(s)| - 1])
    ensures var a := |s| - |TrimStart(s)|; a + |Trim(s)| <= |s| && Trim(s) == s[a..a + |Trim(s)|]
  {
    TrimIsSlice(s);
    TrimEmptyIffBlank(s);
    var u := TrimStart(s);
    var t := TrimEnd(u);
    assert t == Trim(s);
    if t != [] {
      assert t[0] == u[0];
    }
  }

  /** Trim keeps a contiguous slice of its input. */
  lemma TrimIsSlice(s: string)
    ensures var a := |s| - |TrimStart(s)|; a + |Trim(s)| <= |s| && Trim(s) == s[a..a + |Trim(s)|]
  {
    var u := TrimStart(s);
    PrefixOfSuffix(s, |s| - |u|, |TrimEnd(u)|);
  }

  /** A prefix of a suffix is a slice. */
  lemma PrefixOfSuffix(s: string, a: nat, m: nat)
    requires a + m <= |s|
    ensures s[a..][..m] == s[a..a + m]
  {
  }

  /** Trim leaves nothing exactly when every character is a space. */
  lemma TrimEmptyIffBlank(s: string)
    ensures Trim(s) == [] <==> Blank(s)
  {
    var u := TrimStart(s);
    var t := TrimEnd(u);
    if t == [] && u != [] {
      assert false;
    }
    if Blank(s) && u != [] {
      assert false;
    }
  }

  /** Trimming twice is trimming once. */
  lemma TrimIdempotent(s: string)
    ensures Trim(Trim(s)) == Trim(s)
  {
    var t := Trim(s);
    TrimProperties(s);
    if t != [] {
      assert TrimStart(t) == t;
      assert TrimEnd(t) == t;
    }
  }

  /** A non-blank string is still non-blank after trimming. */
  lemma TrimKeepsNonBlank(s: string)
    requires !Blank(s)
    ensures !Blank(Trim(s)) && |Trim(s)| <= |s|
  {
    TrimProperties(s);
    var t := Trim(s);
    assert !IsSpace(t[0]);
  }

  /** The UTF-16 code units one character takes: a character above U+FFFF
      is stored as a surrogate pair. */
  function Utf16Units(c: char): (n: nat)
    ensures n == 1 || n == 2
    ensures n == 2 <==> c as int > 0xFFFF
  {
    if c as int > 0xFFFF then 2 else 1
  }

  /** Java's `String.length()`: the number of UTF-16 code units, at least
      the number of characters and at most twice it. */
  function Utf16Length(s: string): (n: nat)
    ensures |s| <= n <= 2 * |s|
    decreases |s|
  {
    if s == [] then 0 else Utf16Units(s[0]) + Utf16Length(s[1..])
  }

  /** The UTF-16 length of a concatenation is the sum of the lengths. */
  lemma {:induction false} Utf16LengthConcat(a: string, b: string)
    ensures Utf16Length(a + b) == Utf16Length(a) + Utf16Length(b)
    decreases |a|
  {
    if a != [] {
      assert (a + b)[0] == a[0];
      assert (a + b)[1..] == a[1..] + b;
      Utf16LengthConcat(a[1..], b);
    } else {
      assert a + b == b;
    }
  }

  /** Dropping characters from the front never adds UTF-16 units. */
  lemma {:induction false} Utf16LengthOfSuffix(s: string, i: nat)
    requires i <= |s|
    ensures Utf16Length(s[i..]) <= Utf16Length(s)
    decreases i
  {
    if i > 0 {
      assert s[i..] == s[1..][i - 1..];
      Utf16LengthOfSuffix(s[1..], i - 1);
    }
  }

  /** Dropping characters from the back never adds UTF-16 units. */
  lemma {:induction false} Utf16LengthOfPrefix(s: string, j: nat)
    requires j <= |s|
    ensures Utf16Length(s[..j]) <= Utf16Length(s)
    decreases j
  {
    if j > 0 {
      var t := s[..j];
      assert t[0] == s[0];
      assert t[1..] == s[1..][..j - 1];
      Utf16LengthOfPrefix(s[1..], j - 1);
    }
  }

  /** `length()` counts characters exactly when none lies above U+FFFF, and
      counts every character twice exactly when all of them do. */
  lemma {:induction false} Utf16LengthCountsCharacters(s: string)
    ensures Utf16Length(s) == |s| <==> forall i :: 0 <= i < |s| ==> s[i] as int <= 0xFFFF
    ensures Utf16Length(s) == 2 * |s| <==> forall i :: 0 <= i < |s| ==> s[i] as int > 0xFFFF
    decreases |s|
  {
    if s != [] {
      Utf16LengthCountsCharacters(s[1..]);
      assert forall i :: 1 <= i < |s| ==> s[i] == s[1..][i - 1];
      if forall i :: 0 <= i < |s[1..]| ==> s[1..][i] as int <= 0xFFFF {
        assert forall i :: 1 <= i < |s| ==> s[i] as int <= 0xFFFF;
      }
      if forall i :: 0 <= i < |s[1..]| ==> s[1..][i] as int > 0xFFFF {
        assert forall i :: 1 <= i < |s| ==> s[i] as int > 0xFFFF;
      }
    }
  }

  /** Trimming never lengthens a string in UTF-16 units. */
  lemma TrimUtf16Length(s: string)
    ensures Utf16Length(Trim(s)) <= Utf16Length(s)
  {
    var u := TrimStart(s);
    var t := TrimEnd(u);
    Utf16LengthOfSuffix(s, |s| - |u|);
    Utf16LengthOfPrefix(u, |t|);
  }

  /** The name check shared by `Product.validateName` and
      `Customer.validateName`: non-blank and at most `maxLength` UTF-16
      code units, measured before trimming; the trimmed name is what gets
      stored. */
  function ValidateName(name: string, maxLength: nat): (r: Result<string>)
    ensures r.Ok? <==> !Blank(name) && Utf16Length(name) <= maxLength
    ensures r.Err? ==> r.kind == Validation
    ensures r.Ok? ==> r.value == Trim(name) && !Blank(r.value) && Utf16Length(r.value) <= maxLength
  {
    if Blank(name) then Err(Validation)
    else if Utf16Length(name) > maxLength then Err(Validation)
    else
      TrimKeepsNonBlank(name);
      TrimUtf16Length(name);
      Ok(Trim(name))
  }

  /** A name of characters above U+FFFF counts twice in `length()`: 51 of
      them fit a 100-character limit as characters but not as the 102 code
      units Java measures. */
  lemma AstralNameCountsTwice(name: string)
    requires |name| == 51
    requires forall i :: 0 <= i < |name| ==> name[i] as int > 0xFFFF
    ensures Utf16Length(name) == 102
    ensures ValidateName(name, 100) == Err(Validation)
  {
    Utf16LengthCountsCharacters(name);
  }

  /** `Character.toUpperCase` restricted to ASCII letters. */
  function UpperChar(c: char): (u: char)
    ensures 'a' <= c <= 'z' ==> 'A' <= u <= 'Z' && u as int == c as int - 32
    ensures !('a' <= c <= 'z') ==> u == c
  {
    if 'a' <= c <= 'z' then (c as int - 32) as char else c
  }

  /** `String.toUpperCase` on ASCII letters, character by character. */
  function ToUpper(s: string): (u: string)
    ensures |u| == |s|
    ensures forall i :: 0 <= i < |s| ==> u[i] == UpperChar(s[i])
  {
    seq(|s|, i requires 0 <= i < |s| => UpperChar(s[i]))
  }
}
