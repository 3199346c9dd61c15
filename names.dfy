/**
  The name check of addPoint: a name is refused when it is null (the
  prompt was cancelled) or when JavaScript's String.prototype.trim
  leaves nothing of it.
*/
module Names {

  import opened Wrappers

  /**
    The characters trim removes: ECMAScript's WhiteSpace (tab, vertical tab,
    form feed, space, no-break space, the zero-width no-break space and the
    other space separators) and its LineTerminator characters.
  */
  predicate IsTrimmable(c: char)
  {
    || c == '\t' || c == '\n' || c == '\U{000B}' || c == '\U{000C}' || c == '\r' || c == ' '
    || c == '\U{00A0}' || c == '\U{1680}' || ('\U{2000}' <= c <= '\U{200A}')
    || c == '\U{2028}' || c == '\U{2029}' || c == '\U{202F}' || c == '\U{205F}'
    || c == '\U{3000}' || c == '\U{FEFF}'
  }

  /** Every character of `s` is one trim removes. */
  predicate IsBlank(s: string)
  {
    forall i :: 0 <= i < |s| ==> IsTrimmable(s[i])
  }

  /** `r` is the piece of `s` at offset `i`, with only trimmable characters before and after it. */
  predicate Between(s: string, i: int, r: string)
  {
    0 <= i <= |s| - |r| && s[i..i + |r|] == r && IsBlank(s[..i]) && IsBlank(s[i + |r|..])
  }

  /** `s` without its leading trimmable characters. */
  function TrimStart(s: string): (r: string)
    ensures |r| <= |s| && r == s[|s| - |r|..]
    ensures IsBlank(s[..|s| - |r|])
    ensures r == [] || !IsTrimmable(r[0])
  {
    if s != [] && IsTrimmable(s[0]) then
      var r := TrimStart(s[1..]);
      var dropped := s[1..][..|s| - 1 - |r|];
      assert IsBlank(dropped);
      assert s[..|s| - |r|] == [s[0]] + dropped;
      r
    else
      s
  }

  /** `s` without its trailing trimmable characters. */
  function TrimEnd(s: string): (r: string)
    ensures |r| <= |s| && r == s[..|r|]
    ensures IsBlank(s[|r|..])
    ensures r == [] || !IsTrimmable(r[|r| - 1])
  {
    if s != [] && IsTrimmable(s[|s| - 1]) then
      var r := TrimEnd(s[..|s| - 1]);
      var dropped := s[..|s| - 1][|r|..];
      assert IsBlank(dropped);
      assert s[|r|..] == dropped + [s[|s| - 1]];
      r
    else
      s
  }

  /**
    String.prototype.trim: the piece of `s` left between a blank prefix
    and a blank suffix, which neither starts nor ends with whitespace.
  */
  function Trim(s: string): (r: string)
    ensures |r| <= |s|
    ensures r == [] || (!IsTrimmable(r[0]) && !IsTrimmable(r[|r| - 1]))
    ensures exists i :: Between(s, i, r)
  {
    TrimPieces(s);
    TrimEnd(TrimStart(s))
  }

  /** The two trims leave a piece of `s` between a blank prefix and a blank suffix. */
  lemma {:induction false} TrimPieces(s: string)
    ensures var r := TrimEnd(TrimStart(s));
      && (r == [] || (!IsTrimmable(r[0]) && !IsTrimmable(r[|r| - 1])))
      && exists i :: Between(s, i, r)
  {
    var t := TrimStart(s);
    var r := TrimEnd(t);
    var i := |s| - |t|;
    assert r == [] || r[0] == t[0];
    assert s[i..i + |r|] == r by {
      assert s[i..i + |r|] == s[i..][..|r|];
    }
    assert IsBlank(s[i + |r|..]) by {
      assert s[i + |r|..] == t[|r|..];
    }
    assert IsBlank(s[..i]);
    assert Between(s, i, r);
  }

  /** trim leaves the empty string exactly when every character is trimmable. */
  lemma TrimEmptyIffBlank(s: string)
    ensures Trim(s) == [] <==> IsBlank(s)
  {
    var t := TrimStart(s);
    if Trim(s) == [] {
      assert IsBlank(t[0..]);
      assert t == [];
      assert s[..|s| - |t|] == s;
    }
  }

  /** The guard `!name || name.trim() === ""` of addPoint. */
  predicate IsRejectedName(name: Option<string>): (r: bool)
    ensures name.None? ==> r
    ensures name == Some("") ==> r
    ensures name.Some? && name.value != [] && !IsTrimmable(name.value[0]) ==> !r
  {
    name.None? || Trim(name.value) == ""
  }

  /** A name is refused exactly when it is null, empty, or made only of whitespace. */
  lemma RejectedNameIffBlank(name: Option<string>)
    ensures IsRejectedName(name) <==> name.None? || IsBlank(name.value)
  {
    if name.Some? {
      TrimEmptyIffBlank(name.value);
    }
  }
}
