/** The string helpers the webhooks share, on the ASCII letters and blanks. */
module Text {
  function LowerChar(c: char): (r: char)
    ensures r == c || ('A' <= c <= 'Z' && 'a' <= r <= 'z')
  {
    if 'A' <= c <= 'Z' then (c as int + 32) as char else c
  }

  function ToLower(s: string): string { seq(|s|, i requires 0 <= i < |s| => LowerChar(s[i])) }

  predicate IsSpace(c: char) { c == ' ' || 9 as char <= c <= 13 as char }

  function TrimLeft(s: string): string { if s != "" && IsSpace(s[0]) then TrimLeft(s[1..]) else s }

  function TrimRight(s: string): string { if s != "" && IsSpace(s[|s| - 1]) then TrimRight(s[..|s| - 1]) else s }

  function TrimSpace(s: string): string { TrimRight(TrimLeft(s)) }

  predicate Trimmed(s: string) { s != "" ==> !IsSpace(s[0]) && !IsSpace(s[|s| - 1]) }

  predicate Contains(s: string, part: string) {
    exists i :: 0 <= i <= |s| - |part| && s[i..][..|part|] == part
  }

  lemma {:induction false} TrimLeftTrims(s: string)
    ensures TrimLeft(s) != "" ==> !IsSpace(TrimLeft(s)[0])
  {
    if s != "" && IsSpace(s[0]) { TrimLeftTrims(s[1..]); }
  }

  lemma {:induction false} TrimRightTrims(s: string)
    requires s != "" ==> !IsSpace(s[0])
    ensures Trimmed(TrimRight(s))
  {
    if s != "" && IsSpace(s[|s| - 1]) { TrimRightTrims(s[..|s| - 1]); }
  }

  lemma TrimSpaceTrims(s: string)
    ensures Trimmed(TrimSpace(s))
  {
    TrimLeftTrims(s);
    TrimRightTrims(TrimLeft(s));
  }

  lemma TrimSpaceOfTrimmed(s: string)
    requires Trimmed(s)
    ensures TrimSpace(s) == s
  {
  }

  lemma ToLowerTwice(s: string)
    ensures ToLower(ToLower(s)) == ToLower(s)
  {
  }

  // ----- What the helpers mean, character by character -----

  /** The same character, or the same ASCII letter in the other case. */
  predicate SameLetter(a: char, b: char) {
    || a == b
    || ('A' <= a <= 'Z' && b as int == a as int + 32)
    || ('A' <= b <= 'Z' && a as int == b as int + 32)
  }

  predicate UpToCase(a: string, b: string) {
    |a| == |b| && forall i :: 0 <= i < |a| ==> SameLetter(a[i], b[i])
  }

  lemma LowerCharIff(a: char, b: char)
    ensures LowerChar(a) == LowerChar(b) <==> SameLetter(a, b)
  {
  }

  /** Lower-casing identifies exactly the strings that agree up to case. */
  lemma ToLowerIff(a: string, b: string)
    ensures ToLower(a) == ToLower(b) <==> UpToCase(a, b)
  {
    if |a| == |b| {
      forall i | 0 <= i < |a| ensures ToLower(a)[i] == ToLower(b)[i] <==> SameLetter(a[i], b[i]) {
        LowerCharIff(a[i], b[i]);
      }
      if ToLower(a) == ToLower(b) {
        forall i | 0 <= i < |a| ensures SameLetter(a[i], b[i]) { assert ToLower(a)[i] == ToLower(b)[i]; }
      }
    } else {
      assert |ToLower(a)| != |ToLower(b)|;
    }
  }

  predicate Blank(s: string) { forall i :: 0 <= i < |s| ==> s[i] == ' ' || 9 as char <= s[i] <= 13 as char }

  lemma {:induction false} TrimLeftBlank(b: string, s: string)
    requires Blank(b)
    ensures TrimLeft(b + s) == TrimLeft(s)
  {
    if b == "" {
      assert b + s == s;
    } else {
      assert (b + s)[1..] == b[1..] + s;
      TrimLeftBlank(b[1..], s);
    }
  }

  lemma {:induction false} TrimRightBlank(s: string, b: string)
    requires Blank(b)
    ensures TrimRight(s + b) == TrimRight(s)
  {
    if b == "" {
      assert s + b == s;
    } else {
      var front := b[..|b| - 1];
      assert (s + b)[..|s + b| - 1] == s + front;
      assert (s + b)[|s + b| - 1] == b[|b| - 1];
      TrimRightBlank(s, front);
    }
  }

  /** Blanks around a trimmed text go, and nothing else. */
  lemma TrimSpaceIs(b1: string, s: string, b2: string)
    requires Blank(b1) && Blank(b2) && Trimmed(s)
    ensures TrimSpace(b1 + s + b2) == s
  {
    assert b1 + s + b2 == b1 + (s + b2);
    TrimLeftBlank(b1, s + b2);
    if s == "" {
      assert s + b2 == b2 + "";
      TrimLeftBlank(b2, "");
    } else {
      assert (s + b2)[0] == s[0];
      TrimRightBlank(s, b2);
    }
  }

  lemma {:induction false} TrimLeftTakes(s: string) returns (b: string)
    ensures Blank(b) && s == b + TrimLeft(s)
  {
    b := "";
    if s != "" && IsSpace(s[0]) {
      var rest := TrimLeftTakes(s[1..]);
      b := [s[0]] + rest;
      assert s == [s[0]] + s[1..];
    }
  }

  lemma {:induction false} TrimRightTakes(s: string) returns (b: string)
    ensures Blank(b) && s == TrimRight(s) + b
  {
    b := "";
    if s != "" && IsSpace(s[|s| - 1]) {
      var front := TrimRightTakes(s[..|s| - 1]);
      b := front + [s[|s| - 1]];
      assert s == s[..|s| - 1] + [s[|s| - 1]];
    }
  }

  /** What trimming took away were blanks. */
  lemma TrimSpaceTakes(s: string) returns (b1: string, b2: string)
    ensures Blank(b1) && Blank(b2) && s == b1 + TrimSpace(s) + b2
  {
    b1 := TrimLeftTakes(s);
    b2 := TrimRightTakes(TrimLeft(s));
    assert b1 + (TrimSpace(s) + b2) == b1 + TrimSpace(s) + b2;
  }
}
