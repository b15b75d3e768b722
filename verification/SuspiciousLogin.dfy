/** The suspicious-login check: one pass over the user's other sessions, and the user-agent families it
    compares by. */
module SuspiciousLogin {
  import opened Wrappers
  import opened Text

  // ----- User-agent families -----

  datatype Family = IPhone | IPad | Android | Mac | WindowsPC | LinuxPC | Firefox | Edge | Opera | Chrome | Safari

  type Table = seq<(string, Family)>

  const DEVICE_WORDS: Table := [("iphone", IPhone), ("ipad", IPad), ("android", Android), ("macintosh", Mac),
      ("mac os", Mac),
    ("macos", Mac), ("mac os x", Mac), ("windows", WindowsPC), ("linux", LinuxPC)]

  const DEVICE_MARKS: Table := [("iphone", IPhone), ("ipad", IPad), ("android", Android), ("macintosh", Mac),
      ("mac os", Mac),
    ("macos", Mac), ("windows", WindowsPC), ("linux", LinuxPC)]

  const BROWSER_WORDS: Table := [("firefox", Firefox), ("fxios", Firefox), ("edge", Edge), ("edg", Edge),
      ("opera", Opera), ("opr", Opera),
    ("chrome", Chrome), ("crios", Chrome), ("safari", Safari)]

  const BROWSER_MARKS: Table := [("firefox/", Firefox), ("fxios/", Firefox), ("edg/", Edge), ("edge/", Edge),
      ("opr/", Opera), ("opera/", Opera),
    ("chrome/", Chrome), ("crios/", Chrome), ("safari/", Safari)]

  /** The first entry that is the word. */
  function WordFamily(words: Table, word: string): Option<Family> {
    if words == [] then None else if words[0].0 == word then Some(words[0].1) else WordFamily(words[1..], word)
  }

  /** The first entry that occurs in the text. */
  function MarkFamily(marks: Table, text: string): Option<Family> {
    if marks == [] then None else if Contains(text, marks[0].0) then Some(marks[0].1) else MarkFamily(marks[1..], text)
  }

  /** The position of the first comma, or the length. */
  function Comma(s: string): (n: nat)
    ensures n <= |s|
  {
    if s == "" || s[0] == ',' then 0 else 1 + Comma(s[1..])
  }

  /** strings.Split at commas. */
  function Split(s: string): seq<string>
    decreases |s|
  {
    if Comma(s) == |s| then [s] else [s[..Comma(s)]] + Split(s[Comma(s) + 1..])
  }

  /** The first piece that is one of the words. */
  function PieceFamily(words: Table, pieces: seq<string>): Option<Family> {
    if pieces == [] then None
    else
      var found := WordFamily(words, TrimSpace(pieces[0]));
      if found.Some? then found else PieceFamily(words, pieces[1..])
  }

  /** The shape parseDevice and parseBrowser share: words in a comma-separated list, then marks anywhere. */
  function FamilyOf(words: Table, marks: Table, ua: string): Option<Family> {
    var lower := ToLower(ua);
    var listed := if Comma(lower) < |lower| then PieceFamily(words, Split(lower)) else None;
    if listed.Some? then listed else MarkFamily(marks, lower)
  }

  function DeviceOf(ua: string): Option<Family> { FamilyOf(DEVICE_WORDS, DEVICE_MARKS, ua) }

  function BrowserOf(ua: string): Option<Family> { FamilyOf(BROWSER_WORDS, BROWSER_MARKS, ua) }

  function Name(f: Option<Family>, unknown: string): string {
    match f
    case None => unknown
    case Some(IPhone) => "iPhone"
    case Some(IPad) => "iPad"
    case Some(Android) => "Android Device"
    case Some(Mac) => "Mac"
    case Some(WindowsPC) => "Windows PC"
    case Some(LinuxPC) => "Linux PC"
    case Some(Firefox) => "Firefox"
    case Some(Edge) => "Edge"
    case Some(Opera) => "Opera"
    case Some(Chrome) => "Chrome"
    case Some(Safari) => "Safari"
  }

  predicate Recognised(ua: string) { DeviceOf(ua).Some? || BrowserOf(ua).Some? }

  function KeyOf(browser: Option<Family>, device: Option<Family>): string {
    Name(browser, "Unknown Browser") + " on " + Name(device, "Unknown Device")
  }

  function UserAgentKey(ua: string): string { if Recognised(ua) then KeyOf(BrowserOf(ua), DeviceOf(ua)) else ua }

  // ----- A browser update keeps the key -----

  predicate VersionChar(c: char) { '0' <= c <= '9' || c == '.' }

  predicate Version(v: string) { v != "" && forall c :: c in v ==> VersionChar(c) }

  /** What the table texts are made of: no version characters, no capitals, no comma. */
  predicate PlainChar(c: char) { !VersionChar(c) && !('A' <= c <= 'Z') && c != ',' }

  predicate Plain(s: string) { forall c :: c in s ==> PlainChar(c) }

  predicate TablePlain(t: Table) { forall i :: 0 <= i < |t| ==> Plain(t[i].0) && t[i].0 != "" }

  lemma ContainsPrefix(x: string, y: string, part: string)
    requires Contains(x, part)
    ensures Contains(x + y, part)
  {
    var i :| 0 <= i <= |x| - |part| && x[i..][..|part|] == part;
    assert (x + y)[i..][..|part|] == x[i..][..|part|];
  }

  lemma ContainsSuffix(x: string, y: string, part: string)
    requires Contains(y, part)
    ensures Contains(x + y, part)
  {
    var i :| 0 <= i <= |y| - |part| && y[i..][..|part|] == part;
    assert (x + y)[|x| + i..] == y[i..];
  }

  /** A plain mark is never found across a version. */
  lemma ContainsAround(x: string, v: string, y: string, part: string)
    requires Version(v) && Plain(part) && part != ""
    ensures Contains(x + v + y, part) <==> Contains(x, part) || Contains(y, part)
  {
    var s := x + v + y;
    if Contains(x, part) { ContainsPrefix(x, v + y, part); assert x + (v + y) == s; }
    if Contains(y, part) { ContainsSuffix(x + v, y, part); }
    if Contains(s, part) {
      var i :| 0 <= i <= |s| - |part| && s[i..][..|part|] == part;
      Occurrence(x, v, y, part, i);
      if i + |part| <= |x| {
        assert x[i..][..|part|] == part;
      } else {
        assert y[i - |x + v|..][..|part|] == part;
      }
    }
  }

  lemma Occurrence(x: string, v: string, y: string, part: string, i: nat)
    requires Version(v) && Plain(part) && part != ""
    requires i + |part| <= |x + v + y| && (x + v + y)[i..][..|part|] == part
    ensures i + |part| <= |x| || |x + v| <= i
  {
    var s := x + v + y;
    forall k | i <= k < i + |part| ensures !VersionChar(s[k]) { assert s[k] == part[k - i] && part[k - i] in part; }
    forall k | |x| <= k < |x + v| ensures VersionChar(s[k]) { assert s[k] == v[k - |x|] && v[k - |x|] in v; }
    assert VersionChar(s[|x|]) && !VersionChar(s[i]);
  }

  lemma {:induction false} MarkAround(marks: Table, x: string, v1: string, v2: string, y: string)
    requires Version(v1) && Version(v2) && TablePlain(marks)
    ensures MarkFamily(marks, x + v1 + y) == MarkFamily(marks, x + v2 + y)
  {
    if marks != [] {
      ContainsAround(x, v1, y, marks[0].0);
      ContainsAround(x, v2, y, marks[0].0);
      MarkAround(marks[1..], x, v1, v2, y);
    }
  }

  lemma {:induction false} TrimLeftKeeps(s: string, c: char)
    requires c in s && !IsSpace(c)
    ensures c in TrimLeft(s)
  {
    if IsSpace(s[0]) {
      assert s == [s[0]] + s[1..];
      TrimLeftKeeps(s[1..], c);
    }
  }

  lemma {:induction false} TrimRightKeeps(s: string, c: char)
    requires c in s && !IsSpace(c)
    ensures c in TrimRight(s)
  {
    if IsSpace(s[|s| - 1]) {
      assert s == s[..|s| - 1] + [s[|s| - 1]];
      TrimRightKeeps(s[..|s| - 1], c);
    }
  }

  lemma {:induction false} NoSuchWord(words: Table, word: string, c: char)
    requires TablePlain(words) && c in word && VersionChar(c)
    ensures WordFamily(words, word).None?
  {
    if words != [] {
      NoSuchWord(words[1..], word, c);
    }
  }

  /** A piece with a version in it is none of the words. */
  lemma VersionedPiece(words: Table, x: string, v: string, y: string)
    requires TablePlain(words) && Version(v)
    ensures WordFamily(words, TrimSpace(x + v + y)).None?
  {
    var c := v[0];
    assert c in v && (x + v + y)[|x|] == c;
    TrimLeftKeeps(x + v + y, c);
    TrimRightKeeps(TrimLeft(x + v + y), c);
    NoSuchWord(words, TrimSpace(x + v + y), c);
  }

  lemma {:induction false} CommaInside(s: string, n: nat)
    requires n <= |s| && (forall i :: 0 <= i < n ==> s[i] != ',') && (n < |s| ==> s[n] == ',')
    ensures Comma(s) == n
  {
    if n > 0 { CommaInside(s[1..], n - 1); }
  }

  lemma {:induction false} CommaIsFirst(s: string)
    ensures forall i :: 0 <= i < Comma(s) ==> s[i] != ','
    ensures Comma(s) < |s| ==> s[Comma(s)] == ','
  {
    if s != "" && s[0] != ',' { CommaIsFirst(s[1..]); }
  }

  /** Where the first comma is when the text before the version has none. */
  lemma CommaAfter(x: string, v: string, y: string)
    requires Version(v) && Comma(x) == |x|
    ensures Comma(x + v + y) == |x + v| + Comma(y)
  {
    CommaIsFirst(x);
    CommaIsFirst(y);
    var s := x + v + y;
    forall i | 0 <= i < |x + v| + Comma(y) ensures s[i] != ',' {
      if |x| <= i < |x + v| { assert s[i] in v; }
    }
    CommaInside(s, |x + v| + Comma(y));
  }

  lemma CommaBefore(x: string, rest: string)
    requires Comma(x) < |x|
    ensures Comma(x + rest) == Comma(x)
  {
    CommaIsFirst(x);
    CommaInside(x + rest, Comma(x));
  }

  lemma SplitStep(words: Table, s: string, n: nat)
    requires n < |s| && Comma(s) == n
    ensures PieceFamily(words, Split(s)) ==
      var found := WordFamily(words, TrimSpace(s[..n]));
      if found.Some? then found else PieceFamily(words, Split(s[n + 1..]))
  {
    assert Split(s) == [s[..n]] + Split(s[n + 1..]);
    assert Split(s)[1..] == Split(s[n + 1..]);
  }

  lemma PieceLast(words: Table, s: string)
    requires Comma(s) == |s|
    ensures PieceFamily(words, Split(s)) == WordFamily(words, TrimSpace(s))
  {
    assert Split(s) == [s] && PieceFamily(words, [s][1..]).None?;
  }

  /** The family the comma list gives does not depend on a version in it. */
  lemma {:induction false} PieceAround(words: Table, x: string, v: string, y: string)
    requires Version(v) && TablePlain(words)
    ensures PieceFamily(words, Split(x + v + y)) == Around(words, x, y)
    decreases |x|
  {
    var s := x + v + y;
    if Comma(x) < |x| {
      var n := Comma(x);
      CommaBefore(x, v + y);
      assert x + (v + y) == s && s[..n] == x[..n] && s[n + 1..] == x[n + 1..] + v + y;
      SplitStep(words, s, n);
      PieceAround(words, x[n + 1..], v, y);
    } else {
      CommaAfter(x, v, y);
      var n := |x + v| + Comma(y);
      if Comma(y) < |y| {
        assert s[..n] == x + v + y[..Comma(y)] && s[n + 1..] == y[Comma(y) + 1..];
        SplitStep(words, s, n);
        VersionedPiece(words, x, v, y[..Comma(y)]);
      } else {
        PieceLast(words, s);
        VersionedPiece(words, x, v, y);
      }
    }
  }

  /** The listed family of x, some version, y. */
  function Around(words: Table, x: string, y: string): Option<Family>
    decreases |x|
  {
    if Comma(x) < |x| then
      var found := WordFamily(words, TrimSpace(x[..Comma(x)]));
      if found.Some? then found else Around(words, x[Comma(x) + 1..], y)
    else if Comma(y) < |y| then PieceFamily(words, Split(y[Comma(y) + 1..]))
    else None
  }

  lemma HasComma(x: string, v: string, y: string)
    requires Version(v)
    ensures Comma(x + v + y) < |x + v + y| <==> Comma(x) < |x| || Comma(y) < |y|
  {
    if Comma(x) < |x| {
      CommaBefore(x, v + y);
      assert x + (v + y) == x + v + y;
    } else {
      CommaAfter(x, v, y);
    }
  }

  lemma LowerAround(x: string, v: string, y: string)
    requires Version(v)
    ensures ToLower(x + v + y) == ToLower(x) + v + ToLower(y)
  {
    forall i | 0 <= i < |v| ensures LowerChar(v[i]) == v[i] { assert v[i] in v; }
  }

  lemma FamilyAround(words: Table, marks: Table, x: string, v1: string, v2: string, y: string)
    requires Version(v1) && Version(v2) && TablePlain(words) && TablePlain(marks)
    ensures FamilyOf(words, marks, x + v1 + y) == FamilyOf(words, marks, x + v2 + y)
  {
    var lx, ly := ToLower(x), ToLower(y);
    LowerAround(x, v1, y);
    LowerAround(x, v2, y);
    HasComma(lx, v1, ly);
    HasComma(lx, v2, ly);
    PieceAround(words, lx, v1, ly);
    PieceAround(words, lx, v2, ly);
    MarkAround(marks, lx, v1, v2, ly);
  }

  lemma DeviceAround(x: string, v1: string, v2: string, y: string)
    requires Version(v1) && Version(v2)
    ensures DeviceOf(x + v1 + y) == DeviceOf(x + v2 + y)
  {
    DeviceWordsFree();
    DeviceMarksFree();
    FamilyAround(DEVICE_WORDS, DEVICE_MARKS, x, v1, v2, y);
  }

  lemma DeviceTexts()
    ensures Plain("iphone") && Plain("ipad") && Plain("android") && Plain("macintosh")
    ensures Plain("mac os") && Plain("macos") && Plain("mac os x") && Plain("windows")
         && Plain("linux")
  {
  }

  lemma DeviceWordsFree()
    ensures TablePlain(DEVICE_WORDS)
  {
    DeviceTexts();
  }

  lemma DeviceMarksFree()
    ensures TablePlain(DEVICE_MARKS)
  {
    DeviceTexts();
  }

  lemma BrowserTexts()
    ensures Plain("firefox") && Plain("fxios") && Plain("edge") && Plain("edg")
         && Plain("opera")
    ensures Plain("opr") && Plain("chrome") && Plain("crios") && Plain("safari")
  {
  }

  lemma BrowserMarkTexts()
    ensures Plain("firefox/") && Plain("fxios/") && Plain("edge/") && Plain("edg/")
         && Plain("opera/")
    ensures Plain("opr/") && Plain("chrome/") && Plain("crios/") && Plain("safari/")
  {
  }

  lemma BrowserWordsFree()
    ensures TablePlain(BROWSER_WORDS)
  {
    BrowserTexts();
  }

  lemma BrowserMarksFree()
    ensures TablePlain(BROWSER_MARKS)
  {
    BrowserMarkTexts();
  }

  lemma BrowserAround(x: string, v1: string, v2: string, y: string)
    requires Version(v1) && Version(v2)
    ensures BrowserOf(x + v1 + y) == BrowserOf(x + v2 + y)
  {
    BrowserWordsFree();
    BrowserMarksFree();
    FamilyAround(BROWSER_WORDS, BROWSER_MARKS, x, v1, v2, y);
  }

  /** A browser update is not a new browser: whatever stands around it, exchanging one run of digits and
      dots for another leaves the key of a recognised user agent as it was. An unrecognised one is its own
      key, so there the key stays only if the version does. */
  lemma UpdateKeepsKey(x: string, v1: string, v2: string, y: string)
    requires Version(v1) && Version(v2)
    ensures Recognised(x + v1 + y) <==> Recognised(x + v2 + y)
    ensures UserAgentKey(x + v1 + y) == UserAgentKey(x + v2 + y) <==> Recognised(x + v1 + y) || v1 == v2
  {
    DeviceAround(x, v1, v2, y);
    BrowserAround(x, v1, v2, y);
    MiddleTells(x, v1, v2, y);
  }

  lemma MiddleTells(x: string, v1: string, v2: string, y: string)
    ensures x + v1 + y == x + v2 + y <==> v1 == v2
  {
    if x + v1 + y == x + v2 + y {
      assert |v1| == |v2|;
      assert v1 == (x + v1 + y)[|x|..|x| + |v1|] && v2 == (x + v2 + y)[|x|..|x| + |v2|];
    }
  }

  // ----- Which user agents are recognised -----

  /** Families do not depend on the case of letters. */
  lemma CaseDoesNotMatter(ua1: string, ua2: string)
    requires UpToCase(ua1, ua2)
    ensures BrowserOf(ua1) == BrowserOf(ua2) && DeviceOf(ua1) == DeviceOf(ua2)
  {
    ToLowerIff(ua1, ua2);
  }

  predicate OccursAt(ua: string, mark: string, i: nat) {
    i + |mark| <= |ua| && UpToCase(ua[i..i + |mark|], mark)
  }

  /** The mark occurs in the user agent, up to case. */
  predicate Occurs(ua: string, mark: string) { exists i :: 0 <= i <= |ua| && OccursAt(ua, mark, i) }

  lemma PlainIsLower(s: string)
    requires Plain(s)
    ensures ToLower(s) == s
  {
    forall i | 0 <= i < |s| ensures LowerChar(s[i]) == s[i] { assert s[i] in s && PlainChar(s[i]); }
  }

  lemma OccursAtIff(ua: string, mark: string, i: nat)
    requires Plain(mark) && i + |mark| <= |ua|
    ensures OccursAt(ua, mark, i) <==> ToLower(ua)[i..][..|mark|] == mark
  {
    ToLowerIff(ua[i..i + |mark|], mark);
    PlainIsLower(mark);
    assert ToLower(ua)[i..][..|mark|] == ToLower(ua[i..i + |mark|]);
  }

  lemma OccursIff(ua: string, mark: string)
    requires Plain(mark)
    ensures Occurs(ua, mark) <==> Contains(ToLower(ua), mark)
  {
    if i :| 0 <= i <= |ua| && OccursAt(ua, mark, i) { OccursAtIff(ua, mark, i); }
    if i :| 0 <= i <= |ToLower(ua)| - |mark| && ToLower(ua)[i..][..|mark|] == mark { OccursAtIff(ua, mark, i); }
  }

  /** Entry k is the first whose mark occurs. */
  predicate FirstMark(marks: Table, ua: string, k: nat) {
    k < |marks| && Occurs(ua, marks[k].0) && forall j :: 0 <= j < k ==> !Occurs(ua, marks[j].0)
  }

  lemma {:induction false} MarkFamilyIs(marks: Table, ua: string)
    requires TablePlain(marks)
    ensures MarkFamily(marks, ToLower(ua)).None? <==> forall k :: 0 <= k < |marks| ==> !Occurs(ua, marks[k].0)
    ensures MarkFamily(marks, ToLower(ua)).Some? ==>
      exists k: nat :: FirstMark(marks, ua, k) && MarkFamily(marks, ToLower(ua)).value == marks[k].1
  {
    if marks != [] {
      OccursIff(ua, marks[0].0);
      if Occurs(ua, marks[0].0) {
        assert FirstMark(marks, ua, 0);
      } else {
        var rest := marks[1..];
        MarkFamilyIs(rest, ua);
        forall j | 0 < j < |marks| ensures marks[j] == rest[j - 1] {}
        if MarkFamily(rest, ToLower(ua)).Some? {
          var k: nat :| FirstMark(rest, ua, k) && MarkFamily(rest, ToLower(ua)).value == rest[k].1;
          forall j | 0 <= j < k + 1 ensures !Occurs(ua, marks[j].0) {
            if j > 0 { assert !Occurs(ua, rest[j - 1].0); }
          }
          assert marks[k + 1] == rest[k] && Occurs(ua, marks[k + 1].0);
          assert FirstMark(marks, ua, k + 1);
        }
      }
    }
  }

  lemma NoCommaInLower(ua: string)
    requires ',' !in ua
    ensures Comma(ToLower(ua)) == |ToLower(ua)|
  {
    forall i | 0 <= i < |ua| ensures ToLower(ua)[i] != ',' { assert ua[i] in ua; }
    CommaInside(ToLower(ua), |ua|);
  }

  /** Outside comma lists the family is that of the first mark in table order that occurs, up to case; there is
      one exactly when some mark does. */
  lemma FamilyByMark(words: Table, marks: Table, ua: string)
    requires TablePlain(marks) && ',' !in ua
    ensures FamilyOf(words, marks, ua).None? <==> forall k :: 0 <= k < |marks| ==> !Occurs(ua, marks[k].0)
    ensures FamilyOf(words, marks, ua).Some? ==>
      exists k: nat :: FirstMark(marks, ua, k) && FamilyOf(words, marks, ua).value == marks[k].1
  {
    NoCommaInLower(ua);
    MarkFamilyIs(marks, ua);
  }

  /** In or out of a list, a user agent in which a mark occurs is recognised. */
  lemma MarkSuffices(words: Table, marks: Table, ua: string, k: nat)
    requires TablePlain(marks) && k < |marks| && Occurs(ua, marks[k].0)
    ensures FamilyOf(words, marks, ua).Some?
  {
    MarkFamilyIs(marks, ua);
  }

  /** The browser of a user agent that is no comma list, in the order the source asks. */
  lemma BrowserByMark(ua: string)
    requires ',' !in ua
    ensures BrowserOf(ua) ==
      if Occurs(ua, "firefox/") || Occurs(ua, "fxios/") then Some(Firefox)
      else if Occurs(ua, "edg/") || Occurs(ua, "edge/") then Some(Edge)
      else if Occurs(ua, "opr/") || Occurs(ua, "opera/") then Some(Opera)
      else if Occurs(ua, "chrome/") || Occurs(ua, "crios/") then Some(Chrome)
      else if Occurs(ua, "safari/") then Some(Safari)
      else None
  {
    BrowserMarksFree();
    FamilyByMark(BROWSER_WORDS, BROWSER_MARKS, ua);
    BrowserMarkEntries();
  }

  lemma BrowserMarkEntries()
    ensures |BROWSER_MARKS| == 9
    ensures BROWSER_MARKS[0] == ("firefox/", Firefox) && BROWSER_MARKS[1] == ("fxios/", Firefox)
    ensures BROWSER_MARKS[2] == ("edg/", Edge) && BROWSER_MARKS[3] == ("edge/", Edge)
    ensures BROWSER_MARKS[4] == ("opr/", Opera) && BROWSER_MARKS[5] == ("opera/", Opera)
    ensures BROWSER_MARKS[6] == ("chrome/", Chrome) && BROWSER_MARKS[7] == ("crios/", Chrome)
    ensures BROWSER_MARKS[8] == ("safari/", Safari)
  {
  }

  /** The device, likewise. */
  lemma DeviceByMark(ua: string)
    requires ',' !in ua
    ensures DeviceOf(ua) ==
      if Occurs(ua, "iphone") then Some(IPhone)
      else if Occurs(ua, "ipad") then Some(IPad)
      else if Occurs(ua, "android") then Some(Android)
      else if Occurs(ua, "macintosh") || Occurs(ua, "mac os") || Occurs(ua, "macos") then Some(Mac)
      else if Occurs(ua, "windows") then Some(WindowsPC)
      else if Occurs(ua, "linux") then Some(LinuxPC)
      else None
  {
    DeviceMarksFree();
    FamilyByMark(DEVICE_WORDS, DEVICE_MARKS, ua);
    DeviceMarkEntries();
  }

  lemma DeviceMarkEntries()
    ensures |DEVICE_MARKS| == 8
    ensures DEVICE_MARKS[0] == ("iphone", IPhone) && DEVICE_MARKS[1] == ("ipad", IPad)
    ensures DEVICE_MARKS[2] == ("android", Android) && DEVICE_MARKS[3] == ("macintosh", Mac)
    ensures DEVICE_MARKS[4] == ("mac os", Mac) && DEVICE_MARKS[5] == ("macos", Mac)
    ensures DEVICE_MARKS[6] == ("windows", WindowsPC) && DEVICE_MARKS[7] == ("linux", LinuxPC)
  {
  }

  /** A comma list of pieces. */
  function Join(parts: seq<string>): string
    requires parts != []
  {
    if |parts| == 1 then parts[0] else parts[0] + "," + Join(parts[1..])
  }

  predicate NoCommas(parts: seq<string>) { forall i :: 0 <= i < |parts| ==> ',' !in parts[i] }

  /** Splitting gives back the pieces that were joined. */
  lemma {:induction false} SplitJoin(parts: seq<string>)
    requires parts != [] && NoCommas(parts)
    ensures Split(Join(parts)) == parts
  {
    var s, n := Join(parts), |parts[0]|;
    forall i | 0 <= i < n ensures parts[0][i] != ',' { assert parts[0][i] in parts[0]; }
    CommaInside(s, n);
    if |parts| > 1 {
      SplitJoin(parts[1..]);
      assert s[..n] == parts[0] && s[n + 1..] == Join(parts[1..]);
    }
  }

  function Lowered(parts: seq<string>): seq<string> { seq(|parts|, i requires 0 <= i < |parts| => ToLower(parts[i])) }

  lemma {:induction false} LowerJoin(parts: seq<string>)
    requires parts != []
    ensures ToLower(Join(parts)) == Join(Lowered(parts))
  {
    if |parts| > 1 {
      LowerJoin(parts[1..]);
      assert Lowered(parts)[1..] == Lowered(parts[1..]);
      assert ToLower(parts[0] + "," + Join(parts[1..])) == ToLower(parts[0]) + "," + ToLower(Join(parts[1..]));
    }
  }

  lemma LoweredNoCommas(parts: seq<string>)
    requires NoCommas(parts)
    ensures NoCommas(Lowered(parts))
  {
    forall i | 0 <= i < |parts| ensures ',' !in Lowered(parts)[i] {
      forall j | 0 <= j < |parts[i]| ensures Lowered(parts)[i][j] != ',' { assert parts[i][j] in parts[i]; }
    }
  }

  /** The family a piece names. */
  function Names(words: Table, piece: string): Option<Family> { WordFamily(words, TrimSpace(ToLower(piece))) }

  lemma {:induction false} WordFamilyIs(words: Table, word: string, k: nat)
    requires k < |words| && words[k].0 == word && forall j :: 0 <= j < k ==> words[j].0 != word
    ensures WordFamily(words, word) == Some(words[k].1)
  {
    if k > 0 { WordFamilyIs(words[1..], word, k - 1); }
  }

  lemma {:induction false} NoWordFamily(words: Table, word: string)
    requires forall j :: 0 <= j < |words| ==> words[j].0 != word
    ensures WordFamily(words, word) == None
  {
    if words != [] { NoWordFamily(words[1..], word); }
  }

  /** A piece names the family of a word if it is that word, blanks around it and case aside. */
  lemma PieceNames(words: Table, b1: string, piece: string, b2: string, word: string)
    requires Blank(b1) && Blank(b2) && UpToCase(piece, word) && Plain(word) && Trimmed(word)
    ensures Names(words, b1 + piece + b2) == WordFamily(words, word)
  {
    ToLowerIff(piece, word);
    PlainIsLower(word);
    assert ToLower(b1 + piece + b2) == b1 + word + b2 by {
      assert forall i :: 0 <= i < |b1| ==> LowerChar(b1[i]) == b1[i];
      assert forall i :: 0 <= i < |b2| ==> LowerChar(b2[i]) == b2[i];
      assert forall i :: 0 <= i < |word| ==> ToLower(piece)[i] == word[i];
    }
    TrimSpaceIs(b1, word, b2);
  }

  lemma {:induction false} FirstPiece(words: Table, parts: seq<string>, k: nat)
    requires k <= |parts| && (forall j :: 0 <= j < k ==> Names(words, parts[j]).None?)
    requires k < |parts| ==> Names(words, parts[k]).Some?
    ensures PieceFamily(words, Lowered(parts)) == if k < |parts| then Names(words, parts[k]) else None
  {
    if parts != [] && k > 0 {
      assert Lowered(parts)[1..] == Lowered(parts[1..]);
      FirstPiece(words, parts[1..], k - 1);
    }
  }

  lemma SplitOne(s: string)
    ensures |Split(s)| == 1 <==> Comma(s) == |s|
  {
    if Comma(s) < |s| { assert |Split(s)| == 1 + |Split(s[Comma(s) + 1..])|; }
  }

  /** In a comma list the first piece that names a family decides; if none does, the marks do. */
  lemma FamilyOfList(words: Table, marks: Table, parts: seq<string>, k: nat)
    requires |parts| >= 2 && NoCommas(parts) && k <= |parts|
    requires (forall j :: 0 <= j < k ==> Names(words, parts[j]).None?) && (k < |parts| ==> Names(words, parts[k]).Some?)
    ensures FamilyOf(words, marks, Join(parts))
         == if k < |parts| then Names(words, parts[k]) else MarkFamily(marks, ToLower(Join(parts)))
  {
    var lowered := Lowered(parts);
    LowerJoin(parts);
    LoweredNoCommas(parts);
    SplitJoin(lowered);
    FirstPiece(words, parts, k);
    SplitOne(Join(lowered));
  }

  // ----- The key tells the families apart -----

  predicate IsBrowser(f: Family) { f.Firefox? || f.Edge? || f.Opera? || f.Chrome? || f.Safari? }

  predicate AllBrowsers(t: Table) { forall i :: 0 <= i < |t| ==> IsBrowser(t[i].1) }

  predicate AllDevices(t: Table) { forall i :: 0 <= i < |t| ==> !IsBrowser(t[i].1) }

  lemma {:induction false} WordFromTable(words: Table, word: string)
    ensures AllBrowsers(words) && WordFamily(words, word).Some? ==> IsBrowser(WordFamily(words, word).value)
    ensures AllDevices(words) && WordFamily(words, word).Some? ==> !IsBrowser(WordFamily(words, word).value)
  {
    if words != [] { WordFromTable(words[1..], word); }
  }

  lemma {:induction false} MarkFromTable(marks: Table, text: string)
    ensures AllBrowsers(marks) && MarkFamily(marks, text).Some? ==> IsBrowser(MarkFamily(marks, text).value)
    ensures AllDevices(marks) && MarkFamily(marks, text).Some? ==> !IsBrowser(MarkFamily(marks, text).value)
  {
    if marks != [] { MarkFromTable(marks[1..], text); }
  }

  lemma {:induction false} PieceFromTable(words: Table, pieces: seq<string>)
    ensures AllBrowsers(words) && PieceFamily(words, pieces).Some? ==> IsBrowser(PieceFamily(words, pieces).value)
    ensures AllDevices(words) && PieceFamily(words, pieces).Some? ==> !IsBrowser(PieceFamily(words, pieces).value)
  {
    if pieces != [] {
      WordFromTable(words, TrimSpace(pieces[0]));
      PieceFromTable(words, pieces[1..]);
    }
  }

  lemma FamilyFromTables(words: Table, marks: Table, ua: string)
    ensures AllBrowsers(words) && AllBrowsers(marks) && FamilyOf(words, marks, ua).Some?
         ==> IsBrowser(FamilyOf(words, marks, ua).value)
    ensures AllDevices(words) && AllDevices(marks) && FamilyOf(words, marks, ua).Some?
         ==> !IsBrowser(FamilyOf(words, marks, ua).value)
  {
    PieceFromTable(words, Split(ToLower(ua)));
    MarkFromTable(marks, ToLower(ua));
  }

  lemma FamilyKinds(ua: string)
    ensures BrowserOf(ua).Some? ==> IsBrowser(BrowserOf(ua).value)
    ensures DeviceOf(ua).Some? ==> !IsBrowser(DeviceOf(ua).value)
  {
    assert AllBrowsers(BROWSER_WORDS) && AllBrowsers(BROWSER_MARKS) && AllDevices(DEVICE_WORDS)
        && AllDevices(DEVICE_MARKS);
    FamilyFromTables(BROWSER_WORDS, BROWSER_MARKS, ua);
    FamilyFromTables(DEVICE_WORDS, DEVICE_MARKS, ua);
  }

  lemma BrowserInitial(b1: Option<Family>, b2: Option<Family>)
    requires (b1.Some? ==> IsBrowser(b1.value)) && (b2.Some? ==> IsBrowser(b2.value))
    ensures Name(b1, "Unknown Browser")[0] == Name(b2, "Unknown Browser")[0] <==> b1 == b2
  {
  }

  lemma DeviceNames(d1: Option<Family>, d2: Option<Family>)
    requires (d1.Some? ==> !IsBrowser(d1.value)) && (d2.Some? ==> !IsBrowser(d2.value))
    ensures Name(d1, "Unknown Device") == Name(d2, "Unknown Device") <==> d1 == d2
  {
    var n1, n2 := Name(d1, "Unknown Device"), Name(d2, "Unknown Device");
    if n1[0] == n2[0] && |n1| == |n2| { assert d1 == d2; }
  }

  /** Two recognised user agents share a key exactly when they share browser and device family. */
  lemma KeyTellsFamilies(ua1: string, ua2: string)
    requires Recognised(ua1) && Recognised(ua2)
    ensures UserAgentKey(ua1) == UserAgentKey(ua2)
         <==> BrowserOf(ua1) == BrowserOf(ua2) && DeviceOf(ua1) == DeviceOf(ua2)
  {
    FamilyKinds(ua1);
    FamilyKinds(ua2);
    KeysDiffer(BrowserOf(ua1), DeviceOf(ua1), BrowserOf(ua2), DeviceOf(ua2));
  }

  lemma KeysDiffer(b1: Option<Family>, d1: Option<Family>, b2: Option<Family>, d2: Option<Family>)
    requires (b1.Some? ==> IsBrowser(b1.value)) && (b2.Some? ==> IsBrowser(b2.value))
    requires (d1.Some? ==> !IsBrowser(d1.value)) && (d2.Some? ==> !IsBrowser(d2.value))
    ensures KeyOf(b1, d1) == KeyOf(b2, d2) ==> b1 == b2 && d1 == d2
  {
    if KeyOf(b1, d1) == KeyOf(b2, d2) {
      assert KeyOf(b1, d1)[0] == Name(b1, "Unknown Browser")[0] && KeyOf(b2, d2)[0] == Name(b2, "Unknown Browser")[0];
      BrowserInitial(b1, b2);
      var front := Name(b1, "Unknown Browser") + " on ";
      assert KeyOf(b1, d1)[|front|..] == Name(d1, "Unknown Device")
          && KeyOf(b2, d2)[|front|..] == Name(d2, "Unknown Device");
      DeviceNames(d1, d2);
    }
  }

  /** parseDevice and parseBrowser, by table. */
  method ParseFamily(words: Table, marks: Table, ua: string) returns (family: Option<Family>)
    ensures family == FamilyOf(words, marks, ua)
  {
    var lower := ToLower(ua);
    if Comma(lower) < |lower| {
      var parts := Split(lower);
      for i := 0 to |parts|
        invariant PieceFamily(words, parts) == PieceFamily(words, parts[i..])
      {
        var found := WordFamily(words, TrimSpace(parts[i]));
        assert parts[i..][1..] == parts[i + 1..];
        if found.Some? { return found; }
      }
      assert PieceFamily(words, parts[|parts|..]).None?;
    }
    for i := 0 to |marks|
      invariant FamilyOf(words, marks, ua) == MarkFamily(marks[i..], lower)
    {
      assert marks[i..][1..] == marks[i + 1..];
      if Contains(lower, marks[i].0) { return Some(marks[i].1); }
    }
    return None;
  }

  // ----- Sessions -----

  datatype Session = Session(id: string, ip: string, userAgent: string, fingerprint: string, passkey: bool)

  /** The login under scrutiny. */
  datatype Login = Login(ip: string, userAgent: string, fingerprint: string)

  predicate KnowsIP(s: Session, l: Login) { s.ip == l.ip }

  /** `key` is how user agents are compared; the handler's is UserAgentKey. */
  predicate KnowsAgent(s: Session, l: Login, key: string -> string)
  {
    s.userAgent != "" && key(s.userAgent) == key(l.userAgent)
  }

  predicate KnowsFingerprint(s: Session, l: Login) { s.fingerprint == l.fingerprint }

  predicate NewIP(history: set<Session>, l: Login) { l.ip != "" && forall s :: s in history ==> !KnowsIP(s, l) }

  predicate NewAgent(history: set<Session>, l: Login, key: string -> string)
  {
    l.userAgent != "" && forall s :: s in history ==> !KnowsAgent(s, l, key)
  }

  predicate NewFingerprint(history: set<Session>, l: Login)
  {
    l.fingerprint != "" && forall s :: s in history ==> !KnowsFingerprint(s, l)
  }

  /** The specification, over a set: there is a history and something the login shows is new to it. */
  predicate Suspicious(history: set<Session>, l: Login, key: string -> string) {
    history != {} && (NewIP(history, l) || NewAgent(history, l, key) || NewFingerprint(history, l))
  }

  function Elements(sessions: seq<Session>): set<Session> { set s | s in sessions }

  method IsSuspiciousLogin(previous: seq<Session>, l: Login, key: string -> string) returns (suspicious: bool)
    ensures suspicious <==> Suspicious(Elements(previous), l, key)
  {
    if previous == [] { return false; }
    assert previous[0] in Elements(previous);
    var currentKey := key(l.userAgent);
    var ipSeen, agentSeen, fingerprintSeen := false, false, false;
    for i := 0 to |previous|
      invariant ipSeen <==> exists k :: 0 <= k < i && KnowsIP(previous[k], l)
      invariant agentSeen <==> exists k :: 0 <= k < i && KnowsAgent(previous[k], l, key)
      invariant fingerprintSeen <==> l.fingerprint != "" && exists k :: 0 <= k < i && KnowsFingerprint(previous[k], l)
    {
      var s := previous[i];
      if s.ip == l.ip { ipSeen := true; }
      if s.userAgent != "" && key(s.userAgent) == currentKey { agentSeen := true; }
      if l.fingerprint != "" && s.fingerprint == l.fingerprint { fingerprintSeen := true; }
      assert KnowsIP(s, l) <==> s.ip == l.ip;
      assert KnowsAgent(s, l, key) <==> s.userAgent != "" && key(s.userAgent) == currentKey;
    }
    var isNewIP := l.ip != "" && !ipSeen;
    var isNewAgent := l.userAgent != "" && !agentSeen;
    var isNewFingerprint := l.fingerprint != "" && !fingerprintSeen;
    return isNewIP || isNewAgent || isNewFingerprint;
  }

  method FindSessionByID(sessions: seq<Session>, id: string) returns (found: Option<Session>)
    ensures found.None? <==> forall s :: s in sessions ==> s.id != id
    ensures found.Some? ==> exists i :: 0 <= i < |sessions| && sessions[i] == found.value && found.value.id == id
                                     && forall j :: 0 <= j < i ==> sessions[j].id != id
  {
    for i := 0 to |sessions|
      invariant forall j :: 0 <= j < i ==> sessions[j].id != id
    {
      if sessions[i].id == id { return Some(sessions[i]); }
    }
    return None;
  }

  function Others(sessions: seq<Session>, id: string): seq<Session> {
    if sessions == [] then []
    else
      var last := sessions[|sessions| - 1];
      Others(sessions[..|sessions| - 1], id) + if last.id == id then [] else [last]
  }

  function OtherThan(sessions: set<Session>, id: string): set<Session> { set s | s in sessions && s.id != id :: s }

  lemma OtherThanUnion(a: set<Session>, b: set<Session>, id: string)
    ensures OtherThan(a + b, id) == OtherThan(a, id) + OtherThan(b, id)
  {
  }

  lemma ElementsConcat(a: seq<Session>, b: seq<Session>)
    ensures Elements(a + b) == Elements(a) + Elements(b)
  {
  }

  lemma {:induction false} OthersElements(sessions: seq<Session>, id: string)
    ensures Elements(Others(sessions, id)) == OtherThan(Elements(sessions), id)
  {
    if sessions != [] {
      var init, last := sessions[..|sessions| - 1], sessions[|sessions| - 1];
      OthersElements(init, id);
      assert sessions == init + [last];
      ElementsConcat(init, [last]);
      ElementsConcat(Others(init, id), if last.id == id then [] else [last]);
      OtherThanUnion(Elements(init), Elements([last]), id);
    }
  }

  method GetPreviousSessions(sessions: seq<Session>, id: string) returns (previous: seq<Session>)
    ensures previous == Others(sessions, id)
  {
    previous := [];
    for i := 0 to |sessions|
      invariant previous == Others(sessions[..i], id)
    {
      assert sessions[..i + 1][..i] == sessions[..i];
      if sessions[i].id != id { previous := previous + [sessions[i]]; }
    }
    assert sessions[..|sessions|] == sessions;
  }

  /** The first session with the ID was verified with a passkey. */
  predicate PasskeyLogin(sessions: seq<Session>, id: string) {
    exists i :: 0 <= i < |sessions| && sessions[i].id == id && sessions[i].passkey
      && forall j :: 0 <= j < i ==> sessions[j].id != id
  }

  /** A login is flagged exactly when it was not made with a passkey and is suspicious against the user's
      other sessions. */
  predicate Flags(sessions: seq<Session>, id: string, l: Login) {
    !PasskeyLogin(sessions, id) && Suspicious(OtherThan(Elements(sessions), id), l, UserAgentKey)
  }

  /** The handler of session.added, from the listing on. */
  method SessionAdded(sessions: seq<Session>, id: string, l: Login) returns (flagged: bool)
    ensures flagged <==> Flags(sessions, id, l)
  {
    var current := FindSessionByID(sessions, id);
    if current.Some? && current.value.passkey { return false; }
    var previous := GetPreviousSessions(sessions, id);
    OthersElements(sessions, id);
    assert OtherThan(Elements(sessions), id) == Elements(previous);
    flagged := false;
    if |previous| > 0 {
      flagged := IsSuspiciousLogin(previous, l, UserAgentKey);
    }
  }

  /** An ID stands for one session; it may be listed more than once. */
  predicate OneSessionPerId(sessions: seq<Session>) {
    forall s, t :: s in sessions && t in sessions && s.id == t.id ==> s == t
  }

  lemma {:induction false} FirstWithId(sessions: seq<Session>, s: Session) returns (i: nat)
    requires s in sessions
    ensures i < |sessions| && sessions[i].id == s.id && forall j :: 0 <= j < i ==> sessions[j].id != s.id
  {
    i := 0;
    while sessions[i].id != s.id
      invariant i < |sessions| && forall j :: 0 <= j < i ==> sessions[j].id != s.id
      invariant exists k :: i <= k < |sessions| && sessions[k] == s
      decreases |sessions| - i
    {
      i := i + 1;
    }
  }

  lemma PasskeyBySet(sessions: seq<Session>, id: string)
    requires OneSessionPerId(sessions)
    ensures PasskeyLogin(sessions, id) <==> exists s :: s in sessions && s.id == id && s.passkey
  {
    if s :| s in sessions && s.id == id && s.passkey {
      var i := FirstWithId(sessions, s);
      assert sessions[i] in sessions && sessions[i] == s;
    }
  }

  /** Order and repetition of the listing do not matter. */
  lemma OnlyTheSetMatters(a: seq<Session>, b: seq<Session>, id: string, l: Login)
    requires OneSessionPerId(a) && forall s :: s in a <==> s in b
    ensures Flags(a, id, l) <==> Flags(b, id, l)
  {
    assert Elements(a) == Elements(b);
    PasskeyBySet(a, id);
    PasskeyBySet(b, id);
  }

  /** A longer history never newly flags, once there is one. */
  lemma MoreHistoryNeverFlags(history: set<Session>, more: set<Session>, l: Login, key: string -> string)
    requires history <= more && history != {} && Suspicious(more, l, key)
    ensures Suspicious(history, l, key)
  {
  }

  /** The same place, device and recognised browser as an earlier session, in another version: not
      flagged. */
  lemma UpdatedBrowserIsKnown(history: set<Session>, s: Session, x: string, v1: string, v2: string, y: string)
    requires s in history && s.userAgent == x + v1 + y && Version(v1) && Version(v2) && Recognised(s.userAgent)
    ensures !Suspicious(history, Login(s.ip, x + v2 + y, s.fingerprint), UserAgentKey)
  {
    var l := Login(s.ip, x + v2 + y, s.fingerprint);
    UpdateKeepsKey(x, v1, v2, y);
    assert |x + v1 + y| > 0;
    assert KnowsIP(s, l) && KnowsAgent(s, l, UserAgentKey) && KnowsFingerprint(s, l);
  }

  /** The browsers' marks as they are usually written. */
  const USUAL_MARKS: seq<string> :=
    ["Firefox/", "FxiOS/", "Edg/", "Edge/", "OPR/", "Opera/", "Chrome/", "CriOS/", "Safari/"]

  /** So it is for every user agent that contains one of the usual marks. */
  lemma UpdatedUsualBrowserIsKnown(history: set<Session>, s: Session, x: string, v1: string, v2: string, y: string)
    requires s in history && s.userAgent == x + v1 + y && Version(v1) && Version(v2)
    requires exists mark :: mark in USUAL_MARKS && Contains(s.userAgent, mark)
    ensures !Suspicious(history, Login(s.ip, x + v2 + y, s.fingerprint), UserAgentKey)
  {
    var mark :| mark in USUAL_MARKS && Contains(s.userAgent, mark);
    UsualMarkIsRecognised(s.userAgent, mark);
    UpdatedBrowserIsKnown(history, s, x, v1, v2, y);
  }

  lemma ContainedOccurs(ua: string, mark: string, lower: string)
    requires Contains(ua, mark) && UpToCase(mark, lower)
    ensures Occurs(ua, lower)
  {
    var i :| 0 <= i <= |ua| - |mark| && ua[i..][..|mark|] == mark;
    assert ua[i..i + |lower|] == mark;
    assert OccursAt(ua, lower, i);
  }

  lemma UsualMarks(mark: string) returns (k: nat)
    requires mark in USUAL_MARKS
    ensures k < |BROWSER_MARKS| && UpToCase(mark, BROWSER_MARKS[k].0)
  {
    k :| 0 <= k < |USUAL_MARKS| && USUAL_MARKS[k] == mark;
    BrowserMarkEntries();
  }

  lemma UsualMarkIsRecognised(ua: string, mark: string)
    requires mark in USUAL_MARKS
    requires Contains(ua, mark)
    ensures BrowserOf(ua).Some?
  {
    var k := UsualMarks(mark);
    ContainedOccurs(ua, mark, BROWSER_MARKS[k].0);
    BrowserMarksFree();
    MarkSuffices(BROWSER_WORDS, BROWSER_MARKS, ua, k);
  }
}
