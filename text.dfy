/** Option, the usual Some/None wrapper. */
module Wrappers {
  datatype Option<+T> = None | Some(value: T)

  /** One character in front of a text that may be missing. */
  function Prepend(c: char, rest: Option<string>): Option<string>
  {
    match rest
    case None => None
    case Some(t) => Some([c] + t)
  }
}

/**
 * The three JavaScript string operations the detectors rely on:
 * `toLowerCase`, `trim` and `includes`.
 */
module Text {

  /** `toLowerCase` on one character (the ASCII letters; see README for the rest). */
  function LowerChar(c: char): char
  {
    if 'A' <= c <= 'Z' then (c as int + 32) as char else c
  }

  /** `s.toLowerCase()`: every character lower-cased, nothing added or dropped. */
  function Lower(s: string): (r: string)
    ensures |r| == |s|
    ensures forall i :: 0 <= i < |s| ==> r[i] == LowerChar(s[i])
  {
    seq(|s|, i requires 0 <= i < |s| => LowerChar(s[i]))
  }

  /** Lower-casing works character by character, so it distributes over concatenation. */
  lemma LowerConcat(a: string, b: string)
    ensures Lower(a + b) == Lower(a) + Lower(b)
  {
  }

  /** The WhiteSpace and LineTerminator code points that ECMAScript's `trim` strips. */
  const JsSpaces: set<char> := {
    '\t', '\n', '\U{000B}', '\U{000C}', '\r', ' ', '\U{00A0}', '\U{1680}',
    '\U{2000}', '\U{2001}', '\U{2002}', '\U{2003}', '\U{2004}', '\U{2005}',
    '\U{2006}', '\U{2007}', '\U{2008}', '\U{2009}', '\U{200A}',
    '\U{2028}', '\U{2029}', '\U{202F}', '\U{205F}', '\U{3000}', '\U{FEFF}'
  }

  predicate IsJsSpace(c: char)
  {
    c in JsSpaces
  }

  /** The character at `i` is white space. */
  predicate SpaceAt(s: string, i: nat)
    requires i < |s|
  {
    IsJsSpace(s[i])
  }

  /** Every character of `s` is white space. */
  predicate AllSpace(s: string)
  {
    forall i: nat :: i < |s| ==> SpaceAt(s, i)
  }

  /** Any slice of an all-space text is all space. */
  lemma AllSpaceSlice(s: string, i: nat, j: nat)
    requires AllSpace(s) && i <= j <= |s|
    ensures AllSpace(s[i..j])
  {
    forall k: nat | k < j - i ensures SpaceAt(s[i..j], k) {
      assert SpaceAt(s, i + k);
    }
  }

  /** One space in front of an all-space text. */
  lemma AllSpaceCons(c: char, s: string)
    requires IsJsSpace(c) && AllSpace(s)
    ensures AllSpace([c] + s)
  {
    forall i: nat | i < |[c] + s| ensures SpaceAt([c] + s, i) {
      if i > 0 { assert SpaceAt(s, i - 1); }
    }
  }

  /** One space after an all-space text. */
  lemma AllSpaceSnoc(s: string, c: char)
    requires IsJsSpace(c) && AllSpace(s)
    ensures AllSpace(s + [c])
  {
    forall i: nat | i < |s + [c]| ensures SpaceAt(s + [c], i) {
      if i < |s| { assert SpaceAt(s, i); }
    }
  }

  /** True when `s` neither starts nor ends with white space. */
  predicate Trimmed(s: string)
  {
    s == [] || (!IsJsSpace(s[0]) && !IsJsSpace(s[|s| - 1]))
  }

  /**
   * `s.trim()`: a white-space character cut from the front, else from the
   * back, until neither end is white space; what is left is `Trimmed`.
   */
  function Trim(s: string): (r: string)
    ensures Trimmed(r)
    decreases |s|
  {
    if |s| > 0 && IsJsSpace(s[0]) then Trim(s[1..])
    else if |s| > 0 && IsJsSpace(s[|s| - 1]) then Trim(s[..|s| - 1])
    else s
  }

  /**
   * What `trim` keeps is a slice of its input, and everything it cut on
   * either side of that slice is white space.
   */
  lemma {:induction false} TrimSlice(s: string) returns (i: nat)
    ensures i + |Trim(s)| <= |s| && Trim(s) == s[i..i + |Trim(s)|]
    ensures AllSpace(s[..i]) && AllSpace(s[i + |Trim(s)|..])
    decreases |s|
  {
    if |s| > 0 && IsJsSpace(s[0]) {
      var j := TrimSlice(s[1..]);
      i := SliceAfterFront(s, j);
    } else if |s| > 0 && IsJsSpace(s[|s| - 1]) {
      i := TrimSlice(s[..|s| - 1]);
      SliceAfterBack(s, i);
    } else {
      i := 0;
      assert s[..0] == [] && s[|s|..] == [];
    }
  }

  /** `TrimSlice`'s step when the first character is cut. */
  lemma SliceAfterFront(s: string, j: nat) returns (i: nat)
    requires |s| > 0 && IsJsSpace(s[0])
    requires var r := Trim(s[1..]);
      j + |r| <= |s| - 1 && r == s[1..][j..j + |r|] && AllSpace(s[1..][..j]) && AllSpace(s[1..][j + |r|..])
    ensures i + |Trim(s)| <= |s| && Trim(s) == s[i..i + |Trim(s)|]
    ensures AllSpace(s[..i]) && AllSpace(s[i + |Trim(s)|..])
  {
    var rest, r := s[1..], Trim(s[1..]);
    assert Trim(s) == r;
    i := j + 1;
    assert r == s[i..i + |r|] by { assert rest[j..j + |r|] == s[i..i + |r|]; }
    assert AllSpace(s[..i]) by {
      assert s[..i] == [s[0]] + rest[..j];
      AllSpaceCons(s[0], rest[..j]);
    }
    assert rest[j + |r|..] == s[i + |r|..];
  }

  /** `TrimSlice`'s step when the last character is cut. */
  lemma SliceAfterBack(s: string, i: nat)
    requires |s| > 0 && !IsJsSpace(s[0]) && IsJsSpace(s[|s| - 1])
    requires var f := s[..|s| - 1]; var r := Trim(f);
      i + |r| <= |f| && r == f[i..i + |r|] && AllSpace(f[..i]) && AllSpace(f[i + |r|..])
    ensures i + |Trim(s)| <= |s| && Trim(s) == s[i..i + |Trim(s)|]
    ensures AllSpace(s[..i]) && AllSpace(s[i + |Trim(s)|..])
  {
    var front, r := s[..|s| - 1], Trim(s[..|s| - 1]);
    assert Trim(s) == r;
    assert r == s[i..i + |r|] by { assert front[i..i + |r|] == s[i..i + |r|]; }
    assert forall k | 0 <= k < i :: front[..i][k] == s[..i][k];
    assert front[..i] == s[..i];
    assert AllSpace(s[i + |r|..]) by {
      assert s == front + [s[|s| - 1]];
      assert s[i + |r|..] == front[i + |r|..] + [s[|s| - 1]];
      AllSpaceSnoc(front[i + |r|..], s[|s| - 1]);
    }
  }

  /**
   * The converse of `Trim`'s contract: padding a trimmed text with white space on
   * either side gives that text back. So `Trim("true\n") == "true"`.
   */
  lemma {:induction false} TrimOfPadded(p: string, t: string, q: string)
    requires AllSpace(p) && AllSpace(q) && Trimmed(t)
    ensures Trim(p + t + q) == t
    decreases |p| + |q|
  {
    var s := p + t + q;
    if |p| > 0 {
      assert SpaceAt(p, 0) && s[0] == p[0];
      assert s[1..] == p[1..] + t + q;
      AllSpaceSlice(p, 1, |p|);
      assert p[1..|p|] == p[1..];
      TrimOfPadded(p[1..], t, q);
    } else if |q| > 0 && t == [] {
      assert SpaceAt(q, 0) && s == q;
      assert s[1..] == [] + [] + q[1..];
      AllSpaceSlice(q, 1, |q|);
      assert q[1..|q|] == q[1..];
      TrimOfPadded([], [], q[1..]);
    } else if |q| > 0 {
      assert SpaceAt(q, |q| - 1);
      assert s[0] == t[0] && s[|s| - 1] == q[|q| - 1];
      assert s[..|s| - 1] == [] + t + q[..|q| - 1];
      AllSpaceSlice(q, 0, |q| - 1);
      TrimOfPadded([], t, q[..|q| - 1]);
    } else {
      assert s == t;
    }
  }

  /** Trimming twice is trimming once. */
  lemma TrimIdempotent(s: string)
    ensures Trim(Trim(s)) == Trim(s)
  {
    var r := Trim(s);
    assert Trim(r) == r;
  }

  /** `t` occurs in `s` starting at index `i`. */
  predicate OccursAt(s: string, t: string, i: int)
  {
    0 <= i && i + |t| <= |s| && s[i..i + |t|] == t
  }

  /** `s.includes(t)`: `t` occurs in `s` at some index. */
  predicate Includes(s: string, t: string)
  {
    exists i :: 0 <= i <= |s| - |t| && OccursAt(s, t, i)
  }

  /** A text includes every text it is built around. */
  lemma IncludesInfix(s: string, a: string, t: string, b: string)
    requires s == a + t + b
    ensures Includes(s, t)
  {
    assert s[|a|..|a| + |t|] == t;
    assert OccursAt(s, t, |a|);
  }

  /** `includes` is transitive: what `t` contains, any text containing `t` contains too. */
  lemma IncludesTransitive(s: string, t: string, u: string)
    requires Includes(s, t) && Includes(t, u)
    ensures Includes(s, u)
  {
    var i :| 0 <= i <= |s| - |t| && OccursAt(s, t, i);
    var j :| 0 <= j <= |t| - |u| && OccursAt(t, u, j);
    assert s[i..i + |t|] == t && t[j..j + |u|] == u;
    forall k | 0 <= k < |u| ensures s[i + j + k] == u[k] {
      assert s[i + j + k] == s[i..i + |t|][j + k];
      assert t[j + k] == t[j..j + |u|][k];
    }
    assert s[i + j..i + j + |u|] == u;
    assert OccursAt(s, u, i + j);
  }

  /** Whatever includes `big` includes every part of it. */
  lemma IncludesPart(s: string, big: string, small: string)
    requires Includes(big, small)
    ensures Includes(s, big) ==> Includes(s, small)
  {
    if Includes(s, big) { IncludesTransitive(s, big, small); }
  }

  /** A text cannot include a token holding a character the text lacks. */
  lemma ExcludedByMissingChar(s: string, t: string, c: char)
    requires c in t && c !in s
    ensures !Includes(s, t)
  {
  }
}
