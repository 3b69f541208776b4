/** The part of JavaScript's string semantics the composer relies on:
    `String.prototype.trim`, applied to the Agency ID before every request. */
module JsString {

  /** ECMAScript WhiteSpace and LineTerminator code points: the characters `trim` strips. */
  predicate IsWhiteSpace(c: char) {
    var n := c as int;
    || (0x09 <= n <= 0x0D)
    || n == 0x20 || n == 0xA0 || n == 0x1680
    || (0x2000 <= n <= 0x200A)
    || n == 0x2028 || n == 0x2029 || n == 0x202F || n == 0x205F
    || n == 0x3000 || n == 0xFEFF
  }

  predicate AllWhiteSpace(s: string) {
    forall i | 0 <= i < |s| :: IsWhiteSpace(s[i])
  }

  /** `s` starts and ends with a non-white-space character (or is empty). */
  predicate Tight(s: string) {
    s != [] ==> !IsWhiteSpace(s[0]) && !IsWhiteSpace(s[|s| - 1])
  }

  /** Drops leading white space: the result is the longest suffix of `s` that does not
      start with white space (`TrimStartSplit`). */
  function TrimStart(s: string): (r: string)
    ensures |r| <= |s|
    ensures r != [] ==> !IsWhiteSpace(r[0])
  {
    if s != [] && IsWhiteSpace(s[0]) then TrimStart(s[1..]) else s
  }

  /** What `TrimStart` drops is a run of white space, and what it keeps is the rest. */
  lemma {:induction false} TrimStartSplit(s: string)
    ensures var r := TrimStart(s);
      r == s[|s| - |r|..] && AllWhiteSpace(s[..|s| - |r|])
    decreases |s|
  {
    if s != [] && IsWhiteSpace(s[0]) {
      var t := s[1..];
      TrimStartSplit(t);
      var r := TrimStart(t);
      assert t[|t| - |r|..] == s[|s| - |r|..];
      var w, v := s[..|s| - |r|], t[..|t| - |r|];
      forall i | 0 <= i < |w|
        ensures IsWhiteSpace(w[i])
      {
        if i > 0 {
          assert w[i] == v[i - 1];
        }
      }
    } else {
      assert s[..0] == [];
    }
  }

  /** Drops trailing white space: the result is the longest prefix of `s` that does not
      end with white space (`TrimEndSplit`). */
  function TrimEnd(s: string): (r: string)
    ensures |r| <= |s|
    ensures r != [] ==> !IsWhiteSpace(r[|r| - 1])
  {
    if s != [] && IsWhiteSpace(s[|s| - 1]) then TrimEnd(s[..|s| - 1]) else s
  }

  /** What `TrimEnd` keeps is a prefix, and what it drops is a run of white space. */
  lemma {:induction false} TrimEndSplit(s: string)
    ensures var r := TrimEnd(s);
      r == s[..|r|] && AllWhiteSpace(s[|r|..])
    decreases |s|
  {
    if s != [] && IsWhiteSpace(s[|s| - 1]) {
      var t := s[..|s| - 1];
      TrimEndSplit(t);
      var r := TrimEnd(t);
      assert t[..|r|] == s[..|r|];
      var w, v := s[|r|..], t[|r|..];
      forall i | 0 <= i < |w|
        ensures IsWhiteSpace(w[i])
      {
        if i < |v| {
          assert w[i] == v[i];
        }
      }
    } else {
      assert s[|s|..] == [];
    }
  }

  /** `String.prototype.trim`. */
  function Trim(s: string): (r: string)
    ensures Tight(r)
    ensures r == [] <==> AllWhiteSpace(s)
  {
    var a := TrimStart(s);
    var r := TrimEnd(a);
    TrimStartSplit(s);
    TrimEndSplit(a);
    assert r != [] ==> r[0] == a[0];
    assert a == [] ==> s[..|s|] == s;
    assert r == [] ==> a[|r|..] == a;
    r
  }

  /** Trimming only removes white space from the two ends: `s` is the trimmed string with
      a run of white space on either side. */
  lemma TrimIsInfix(s: string)
    ensures var lead := |s| - |TrimStart(s)|;
      && lead + |Trim(s)| <= |s|
      && s == s[..lead] + Trim(s) + s[lead + |Trim(s)|..]
      && AllWhiteSpace(s[..lead]) && AllWhiteSpace(s[lead + |Trim(s)|..])
  {
    var m := TrimStart(s);
    var r := TrimEnd(m);
    var lead := |s| - |m|;
    TrimStartSplit(s);
    TrimEndSplit(m);
    assert Trim(s) == r;
    assert m[|r|..] == s[lead + |r|..];
    assert s == s[..lead] + m;
    Reassemble(s, m, r, lead);
  }

  lemma Reassemble(s: string, m: string, r: string, lead: nat)
    requires lead + |m| == |s| && s == s[..lead] + m && |r| <= |m| && r == m[..|r|]
    ensures s == s[..lead] + r + s[lead + |r|..]
  {
    assert m == r + m[|r|..];
    assert m[|r|..] == s[lead + |r|..];
  }

  /** The reference characterisation: whatever white space surrounds a tight string,
      trimming recovers exactly that string. */
  lemma {:induction false} TrimUnique(a: string, r: string, b: string)
    requires AllWhiteSpace(a) && AllWhiteSpace(b) && Tight(r)
    ensures Trim(a + r + b) == r
  {
    assert a + r + b == a + (r + b);
    TrimStartDrops(a, r + b);
    TrimStartTight(r, b);
    TrimEndDrops(r, b);
  }

  lemma TrimStartTight(r: string, b: string)
    requires AllWhiteSpace(b) && Tight(r)
    ensures TrimStart(r + b) == (if r == [] then [] else r + b)
  {
    if r == [] {
      assert r + b == b;
      TrimStartAllWhite(b);
    } else {
      assert (r + b)[0] == r[0];
    }
  }

  lemma {:induction false} TrimStartDrops(a: string, t: string)
    requires AllWhiteSpace(a)
    ensures TrimStart(a + t) == TrimStart(t)
    decreases |a|
  {
    if a != [] {
      assert (a + t)[1..] == a[1..] + t;
      TrimStartDrops(a[1..], t);
    } else {
      assert a + t == t;
    }
  }

  lemma {:induction false} TrimEndDrops(r: string, b: string)
    requires AllWhiteSpace(b) && Tight(r)
    ensures TrimEnd(r + b) == r
    decreases |b|
  {
    if b != [] {
      assert (r + b)[..|r + b| - 1] == r + b[..|b| - 1];
      TrimEndDrops(r, b[..|b| - 1]);
    } else {
      assert r + b == r;
    }
  }

  lemma {:induction false} TrimStartAllWhite(s: string)
    requires AllWhiteSpace(s)
    ensures TrimStart(s) == []
    decreases |s|
  {
    if s != [] {
      TrimStartAllWhite(s[1..]);
    }
  }

  /** Trimming twice is trimming once. */
  lemma {:induction false} TrimIdempotent(s: string)
    ensures Trim(Trim(s)) == Trim(s)
  {
    var r := Trim(s);
    var e: string := [];
    assert AllWhiteSpace(e);
    assert e + r + e == r;
    TrimUnique(e, r, e);
  }

}
