/** The few JavaScript value rules the page scripts rely on: a missing value,
    the `||` fallback on strings, `String.prototype.trim`, ASCII case mapping,
    and the shape of an awaited `fetch` + `response.json()`. */
module JsText {

  datatype Option<+T> = None | Some(value: T)

  /** Truthiness of a string-or-missing value: `null`, `undefined` and "" are falsy. */
  predicate Truthy(v: Option<string>) { v.Some? && v.value != "" }

  /** `v || fallback` for a string-or-missing value. */
  function OrElse(v: Option<string>, fallback: string): (r: string)
    ensures Truthy(v) ==> r == v.value
    ensures !Truthy(v) ==> r == fallback
    ensures fallback != "" ==> r != ""
  {
    if v.Some? && v.value != "" then v.value else fallback
  }

  /** The outcome of awaiting `fetch(...)` and then `response.json()`:
      either one of them threw (network failure, body that is not JSON),
      or a parsed body arrived with the response's `ok` flag. */
  datatype Reply<+B> = Threw | Answered(ok: bool, body: B)

  /** What `showMessage(message, type)` leaves in a page's message box: the
      text, green for "success" and red for every other type. */
  datatype Tone = Success | Error
  datatype Message = Message(text: string, tone: Tone)

  /** The text every page shows when the request or its JSON body fails. */
  const TryAgain := "An error occurred. Please try again."

  /** Whitespace removed by `trim`: the ASCII blanks, no-break space,
      the line and paragraph separators and the byte-order mark. */
  predicate IsSpace(c: char)
  {
    c == ' ' || c == '\t' || c == '\n' || c == '\r' || c == '\U{B}' || c == '\U{C}'
    || c == '\U{A0}' || c == '\U{2028}' || c == '\U{2029}' || c == '\U{FEFF}'
  }

  predicate AllSpace(s: string) { forall i :: 0 <= i < |s| ==> IsSpace(s[i]) }

  function TrimStart(s: string): (r: string)
    ensures |r| <= |s| && r == s[|s| - |r|..]
    ensures forall i :: 0 <= i < |s| - |r| ==> IsSpace(s[i])
    ensures r == [] || !IsSpace(r[0])
  {
    if s != [] && IsSpace(s[0]) then TrimStart(s[1..]) else s
  }

  function TrimEnd(s: string): (r: string)
    ensures |r| <= |s| && r == s[..|r|]
    ensures forall i :: |r| <= i < |s| ==> IsSpace(s[i])
    ensures r == [] || !IsSpace(r[|r| - 1])
  {
    if s != [] && IsSpace(s[|s| - 1]) then TrimEnd(s[..|s| - 1]) else s
  }

  /** `s.trim()`: whitespace dropped from both ends. */
  function Trim(s: string): (r: string)
    ensures |r| <= |s|
    ensures r == [] || (!IsSpace(r[0]) && !IsSpace(r[|r| - 1]))
  {
    TrimEnd(TrimStart(s))
  }

  /** What `Trim` keeps is an infix of its argument, and everything it drops,
      before and after, is whitespace. */
  lemma TrimInfix(s: string)
    ensures var r, k := Trim(s), |s| - |TrimStart(s)|;
      && k + |r| <= |s| && r == s[k..k + |r|]
      && (forall i :: 0 <= i < k ==> IsSpace(s[i]))
      && (forall i :: k + |r| <= i < |s| ==> IsSpace(s[i]))
  {
    var t := TrimStart(s);
    var r := TrimEnd(t);
    var k := |s| - |t|;
    assert t == s[k..] && r == t[..|r|];
    forall i | k + |r| <= i < |s|
      ensures IsSpace(s[i])
    {
      assert s[i] == t[i - k];
    }
  }

  /** A string trims to "" exactly when it is all whitespace. */
  lemma TrimEmpty(s: string)
    ensures Trim(s) == [] <==> AllSpace(s)
  {
    var k := |s| - |TrimStart(s)|;
    TrimInfix(s);
    if Trim(s) == [] {
      assert k == |s|;
      assert s == s[..k];
    }
  }

  lemma TrimStartIdle(s: string)
    requires s == [] || !IsSpace(s[0])
    ensures TrimStart(s) == s
  {
  }

  lemma TrimEndIdle(s: string)
    requires s == [] || !IsSpace(s[|s| - 1])
    ensures TrimEnd(s) == s
  {
  }

  /** Trimming twice changes nothing more. */
  lemma TrimIdempotent(s: string)
    ensures Trim(Trim(s)) == Trim(s)
  {
    var r := Trim(s);
    TrimStartIdle(r);
    TrimEndIdle(r);
  }

  function UpperChar(c: char): (u: char)
    ensures 'a' <= c <= 'z' ==> 'A' <= u <= 'Z'
    ensures !('a' <= c <= 'z') ==> u == c
  {
    if 'a' <= c <= 'z' then (c as int - 32) as char else c
  }

  function LowerChar(c: char): (l: char)
    ensures 'A' <= c <= 'Z' ==> 'a' <= l <= 'z'
    ensures !('A' <= c <= 'Z') ==> l == c
  {
    if 'A' <= c <= 'Z' then (c as int + 32) as char else c
  }

  /** `s.toLowerCase()` on the ASCII letters. */
  function Lower(s: string): (r: string)
    ensures |r| == |s|
    ensures forall i :: 0 <= i < |s| ==> r[i] == LowerChar(s[i])
  {
    seq(|s|, i requires 0 <= i < |s| => LowerChar(s[i]))
  }

  /** `s.charAt(0).toUpperCase() + s.slice(1).toLowerCase()`. */
  function Capitalized(s: string): (r: string)
    ensures |r| == |s|
    ensures s != [] ==> r[0] == UpperChar(s[0])
    ensures forall i :: 1 <= i < |s| ==> r[i] == LowerChar(s[i])
  {
    if s == [] then [] else [UpperChar(s[0])] + Lower(s[1..])
  }

  /** Capitalising an already capitalised word changes nothing. */
  lemma CapitalizedIdempotent(s: string)
    ensures Capitalized(Capitalized(s)) == Capitalized(s)
  {
    var c := Capitalized(s);
    var cc := Capitalized(c);
    assert |cc| == |c|;
    forall i | 0 <= i < |c| ensures cc[i] == c[i] {
      if i == 0 { assert UpperChar(UpperChar(s[0])) == UpperChar(s[0]); }
      else { assert LowerChar(LowerChar(s[i])) == LowerChar(s[i]); }
    }
  }

  /** Capitalising looks only at the letters, not at their case: two words
      that differ only in case capitalise alike. */
  lemma CapitalizedIgnoresCase(s: string, t: string)
    requires |s| == |t|
    requires forall i :: 0 <= i < |s| ==> LowerChar(s[i]) == LowerChar(t[i])
    ensures Capitalized(s) == Capitalized(t)
  {
    var cs, ct := Capitalized(s), Capitalized(t);
    forall i | 0 <= i < |s| ensures cs[i] == ct[i] {
      if i == 0 {
        assert UpperChar(s[0]) == UpperChar(LowerChar(s[0])) == UpperChar(LowerChar(t[0])) == UpperChar(t[0]);
      }
    }
  }
}
