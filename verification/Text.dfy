/** The string functions of the backend's standard library that the models use. */
module Text {
  import opened Wrappers

  /** The characters `trim` removes: those with the Unicode property White_Space. */
  predicate IsWhitespace(c: char)
  {
    '\t' <= c <= '\r' || c == ' ' || c == '\U{85}' || c == '\U{A0}' || c == '\U{1680}' ||
    '\U{2000}' <= c <= '\U{200A}' || c == '\U{2028}' || c == '\U{2029}' || c == '\U{202F}' ||
    c == '\U{205F}' || c == '\U{3000}'
  }

  function TrimStart(s: string): (t: string)
    ensures t != "" ==> !IsWhitespace(t[0])
    ensures |t| <= |s| && t == s[|s| - |t|..]
    ensures forall i :: 0 <= i < |s| - |t| ==> IsWhitespace(s[i])
  {
    if s != "" && IsWhitespace(s[0]) then TrimStart(s[1..]) else s
  }

  function TrimEnd(s: string): (t: string)
    ensures t != "" ==> !IsWhitespace(t[|t| - 1])
    ensures |t| <= |s| && t == s[..|t|]
    ensures forall i :: |t| <= i < |s| ==> IsWhitespace(s[i])
  {
    if s != "" && IsWhitespace(s[|s| - 1]) then TrimEnd(s[..|s| - 1]) else s
  }

  function Trim(s: string): (t: string)
    ensures t != "" ==> !IsWhitespace(t[0]) && !IsWhitespace(t[|t| - 1])
    ensures t == "" <==> forall i :: 0 <= i < |s| ==> IsWhitespace(s[i])
  {
    var ended := TrimEnd(s);
    var t := TrimStart(ended);
    assert t != "" ==> t[|t| - 1] == ended[|ended| - 1];
    assert t != "" ==> !IsWhitespace(s[|ended| - |t|]);
    t
  }

  /** `t` is `s` without the whitespace at its ends. */
  ghost predicate IsTrimmed(s: string, t: string)
  {
    (t != "" ==> !IsWhitespace(t[0]) && !IsWhitespace(t[|t| - 1])) &&
    exists i, j :: 0 <= i <= j <= |s| && CutsOut(s, i, j, t)
  }

  predicate CutsOut(s: string, i: nat, j: nat, t: string)
    requires i <= j <= |s|
  {
    t == s[i..j] && forall k :: 0 <= k < |s| && !(i <= k < j) ==> IsWhitespace(s[k])
  }

  lemma TrimIsTrimmed(s: string)
    ensures IsTrimmed(s, Trim(s))
  {
    var ended := TrimEnd(s);
    var i := |ended| - |TrimStart(ended)|;
    assert forall k :: 0 <= k < i ==> s[k] == ended[k];
    assert CutsOut(s, i, |ended|, Trim(s));
  }

  /** Only one text is. */
  lemma TrimmedIsUnique(s: string, t: string)
    requires IsTrimmed(s, t)
    ensures t == Trim(s)
  {
    var u := Trim(s);
    TrimIsTrimmed(s);
    hide Trim, IsWhitespace;
    var i, j :| 0 <= i <= j <= |s| && CutsOut(s, i, j, t);
    var m, n :| 0 <= m <= n <= |s| && CutsOut(s, m, n, u);
    CutIsInside(s, i, j, t, m, n, u);
    CutIsInside(s, m, n, u, i, j, t);
    assert i < j ==> i == m && j == n;
  }

  lemma CutIsInside(s: string, i: nat, j: nat, t: string, m: nat, n: nat, u: string)
    requires i <= j <= |s| && CutsOut(s, i, j, t) && m <= n <= |s| && CutsOut(s, m, n, u)
    requires t != "" ==> !IsWhitespace(t[0]) && !IsWhitespace(t[|t| - 1])
    ensures i < j ==> m <= i && j <= n
  {
    hide IsWhitespace;
    if i < j {
      assert s[i] == t[0] && s[j - 1] == t[|t| - 1];
    }
  }

  lemma TrimTwice(s: string)
    ensures Trim(Trim(s)) == Trim(s)
  {
  }

  /** `non_blank` */
  function NonBlank(s: string): (r: Option<string>)
    ensures r.Some? ==> r.value != "" && Trim(r.value) == r.value
  {
    TrimTwice(s);
    if Trim(s) == "" then None else Some(Trim(s))
  }

  /** `non_empty` */
  function NonEmpty(s: Option<string>): (r: Option<string>)
    ensures r.Some? ==> r.value != "" && Trim(r.value) == r.value
  {
    if s.None? then None else NonBlank(s.value)
  }

  predicate HasText(s: string)
  {
    exists i :: 0 <= i < |s| && !IsWhitespace(s[i])
  }

  /** The text without whitespace at its ends, or nothing when there is no other text. */
  ghost predicate IsText(s: string, r: Option<string>)
  {
    if HasText(s) then r.Some? && IsTrimmed(s, r.value) else r.None?
  }

  ghost predicate IsTextOf(s: Option<string>, r: Option<string>)
  {
    if s.Some? then IsText(s.value, r) else r.None?
  }

  lemma NonBlankIs(s: string)
    ensures IsText(s, NonBlank(s))
  {
    TrimIsTrimmed(s);
    hide IsWhitespace, IsTrimmed;
  }

  lemma NonEmptyIs(s: Option<string>)
    ensures IsTextOf(s, NonEmpty(s))
  {
    if s.Some? {
      NonBlankIs(s.value);
    }
    hide IsText, NonBlank;
  }

  /** Lower case, for the ASCII letters. */
  function AsciiLower(s: string): (r: string)
    ensures |r| == |s|
  {
    seq(|s|, i requires 0 <= i < |s| => if 'A' <= s[i] <= 'Z' then s[i] - 'A' + 'a' else s[i])
  }

  lemma LowerLetters(s: string)
    ensures forall i :: 0 <= i < |s| ==>
              AsciiLower(s)[i] as int == if 'A' <= s[i] <= 'Z' then s[i] as int + 32 else s[i] as int
  {
  }

  function Join(parts: seq<string>, separator: string): string
  {
    if parts == [] then ""
    else if |parts| == 1 then parts[0]
    else parts[0] + separator + Join(parts[1..], separator)
  }
}
