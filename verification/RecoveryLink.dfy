/** The recovery link: identifiers in the query, the code in the fragment, both form-urlencoded. */
module RecoveryLink {
  import opened Wrappers
  import Text

  /** Go strings are bytes; a byte is a character below 256. */
  type Octet = c: char | c as int < 256
  type Octets = seq<Octet>

  // ----- Percent-encoding -----

  predicate Unreserved(c: Octet) {
    'a' <= c <= 'z' || 'A' <= c <= 'Z' || '0' <= c <= '9' || c == '-' || c == '_' || c == '.' || c == '~'
  }

  function HexDigit(n: nat): (c: Octet)
    requires n < 16
    ensures Unreserved(c) && IsHex(c) && HexValue(c) == n
  {
    (if n < 10 then n + 48 else n + 55) as char
  }

  predicate IsHex(c: Octet) { '0' <= c <= '9' || 'a' <= c <= 'f' || 'A' <= c <= 'F' }

  function HexValue(c: Octet): (n: nat)
    requires IsHex(c)
    ensures n < 16
  {
    if c <= '9' then c as int - 48 else if c <= 'F' then c as int - 55 else c as int - 87
  }

  function EscapeOctet(c: Octet): Octets {
    if Unreserved(c) then [c] else if c == ' ' then ['+'] else ['%', HexDigit(c as int / 16), HexDigit(c as int % 16)]
  }

  /** url.QueryEscape */
  function Escape(s: Octets): Octets { if s == [] then [] else EscapeOctet(s[0]) + Escape(s[1..]) }

  /** A percent sign with two hexadecimal digits after it. */
  predicate AtTriplet(s: Octets) { |s| >= 3 && s[0] == '%' && IsHex(s[1]) && IsHex(s[2]) }

  /** url.QueryUnescape when strict; the URL Standard's reader takes a stray percent sign literally. */
  function Unescape(s: Octets, strict: bool): Option<Octets> {
    if s == [] then Some([])
    else if AtTriplet(s) then Prepend((HexValue(s[1]) * 16 + HexValue(s[2])) as char, Unescape(s[3..], strict))
    else if s[0] == '%' && strict then None
    else Prepend(if s[0] == '+' then ' ' else s[0], Unescape(s[1..], strict))
  }

  function Prepend(c: Octet, rest: Option<Octets>): Option<Octets>
  {
    if rest.Some? then Some([c] + rest.value) else None
  }

  lemma OctetBack(c: Octet, rest: Octets, strict: bool)
    ensures Unescape(EscapeOctet(c) + rest, strict) == Prepend(c, Unescape(rest, strict))
  {
    var e := EscapeOctet(c);
    assert (e + rest)[|e|..] == rest;
    if e[0] == '%' {
      assert AtTriplet(e + rest) && HexValue(e[1]) * 16 + HexValue(e[2]) == c as int;
    } else {
      assert (e + rest)[0] == e[0] && !AtTriplet(e + rest);
    }
  }

  /** Either reader gets every byte string back from its escaped form. */
  lemma {:induction false} UnescapeEscape(s: Octets, strict: bool)
    ensures Unescape(Escape(s), strict) == Some(s)
  {
    if s != [] {
      UnescapeEscape(s[1..], strict);
      OctetBack(s[0], Escape(s[1..]), strict);
      assert [s[0]] + s[1..] == s;
    }
  }

  /** The strict reader refuses exactly the texts with a percent sign that no two hexadecimal digits follow; the
      other refuses none. */
  lemma {:induction false} UnescapeFailsIff(s: Octets, strict: bool)
    ensures Unescape(s, strict).None? <==> strict && exists i :: 0 <= i < |s| && s[i] == '%' && !AtTriplet(s[i..])
  {
    if s != [] {
      var n := if AtTriplet(s) then 3 else 1;
      UnescapeFailsIff(s[n..], strict);
      assert forall i :: 0 <= i < |s| - n ==> s[n..][i] == s[n + i] && s[n..][i..] == s[n + i..];
      if s[0] == '%' && !AtTriplet(s) { assert s[0..] == s; }
      if i :| 0 <= i < |s| - n && s[n..][i] == '%' && !AtTriplet(s[n..][i..]) { assert s[n + i..] == s[n..][i..]; }
      if i :| 0 <= i < |s| && s[i] == '%' && !AtTriplet(s[i..]) {
        assert s[0..] == s;
        if i >= n { assert s[n..][i - n..] == s[i..]; }
      }
    }
  }

  /** What an escaped string is made of; in particular no '#', '&', '=', ';', '?' or blank. */
  predicate Plain(s: Octets) { forall c :: c in s ==> Unreserved(c) || c == '+' || c == '%' }

  lemma {:induction false} EscapeIsPlain(s: Octets)
    ensures Plain(Escape(s))
  {
    if s != [] { EscapeIsPlain(s[1..]); }
  }

  // ----- Cutting -----

  /** strings.Cut: (before the first c, after it); all of s and nothing when there is none. */
  function Cut(s: Octets, c: Octet): (r: (Octets, Octets))
    ensures |r.0| + |r.1| <= |s| && (s != [] ==> |r.1| < |s|)
  {
    if s == [] then ([], [])
    else if s[0] == c then ([], s[1..])
    else var (before, after) := Cut(s[1..], c); ([s[0]] + before, after)
  }

  lemma {:induction false} CutAt(a: Octets, c: Octet, b: Octets)
    requires c !in a
    ensures Cut(a + [c] + b, c) == (a, b)
  {
    var s := a + [c] + b;
    if a == [] {
      assert s[1..] == b;
    } else {
      CutAt(a[1..], c, b);
      assert s[1..] == a[1..] + [c] + b;
      assert [a[0]] + a[1..] == a;
    }
  }

  lemma {:induction false} CutNowhere(a: Octets, c: Octet)
    requires c !in a
    ensures Cut(a, c) == (a, [])
  {
    if a != [] {
      CutNowhere(a[1..], c);
      assert [a[0]] + a[1..] == a;
    }
  }

  // ----- Queries as pairs -----

  datatype Pair = Pair(key: Octets, value: Octets)

  function EncodePair(p: Pair): Octets { Escape(p.key) + ['='] + Escape(p.value) }

  function EncodePairs(ps: seq<Pair>): Octets {
    if ps == [] then [] else if |ps| == 1 then EncodePair(ps[0]) else EncodePair(ps[0]) + ['&'] + EncodePairs(ps[1..])
  }

  /** One piece between ampersands: nothing if it is empty, or, for the strict reader, malformed. */
  function ParsePiece(piece: Octets, strict: bool): seq<Pair> {
    if piece == [] || (strict && ';' in piece) then []
    else
      var (key, value) := Cut(piece, '=');
      var k := Unescape(key, strict);
      var v := Unescape(value, strict);
      if k.Some? && v.Some? then [Pair(k.value, v.value)] else []
  }

  /** url.ParseQuery, errors ignored, when strict; the URL Standard's form parser otherwise. */
  function ParsePairs(query: Octets, strict: bool): seq<Pair>
    decreases |query|
  {
    if query == [] then []
    else var (piece, rest) := Cut(query, '&'); ParsePiece(piece, strict) + ParsePairs(rest, strict)
  }

  lemma PairIsClean(p: Pair)
    ensures '&' !in EncodePair(p) && ';' !in EncodePair(p) && '#' !in EncodePair(p)
  {
    EscapeIsPlain(p.key);
    EscapeIsPlain(p.value);
  }

  lemma ParseEncodedPair(p: Pair, strict: bool)
    ensures ParsePiece(EncodePair(p), strict) == [p]
  {
    PairIsClean(p);
    EscapeIsPlain(p.key);
    CutAt(Escape(p.key), '=', Escape(p.value));
    UnescapeEscape(p.key, strict);
    UnescapeEscape(p.value, strict);
  }

  lemma ParseStep(a: Octets, rest: Octets, strict: bool)
    requires '&' !in a
    ensures ParsePairs(a + ['&'] + rest, strict) == ParsePiece(a, strict) + ParsePairs(rest, strict)
  {
    CutAt(a, '&', rest);
  }

  lemma ParseLast(a: Octets, strict: bool)
    requires '&' !in a
    ensures ParsePairs(a, strict) == ParsePiece(a, strict)
  {
    CutNowhere(a, '&');
  }

  /** Both readers get back exactly the pairs that were encoded, in order. */
  lemma {:induction false} ParseEncode(ps: seq<Pair>, strict: bool)
    ensures ParsePairs(EncodePairs(ps), strict) == ps
  {
    if ps != [] {
      PairIsClean(ps[0]);
      ParseEncodedPair(ps[0], strict);
      if |ps| == 1 {
        ParseLast(EncodePair(ps[0]), strict);
      } else {
        ParseStep(EncodePair(ps[0]), EncodePairs(ps[1..]), strict);
        ParseEncode(ps[1..], strict);
        assert [ps[0]] + ps[1..] == ps;
      }
    }
  }

  lemma {:induction false} EncodedHasNoHash(ps: seq<Pair>)
    ensures '#' !in EncodePairs(ps)
  {
    if ps != [] {
      PairIsClean(ps[0]);
      EncodedHasNoHash(ps[1..]);
    }
  }

  // ----- url.Values -----

  type Values = map<Octets, seq<Octets>>

  function Add(m: Values, p: Pair): Values { m[p.key := (if p.key in m then m[p.key] else []) + [p.value]] }

  function Collect(m: Values, ps: seq<Pair>): Values {
    if ps == [] then m else Add(Collect(m, ps[..|ps| - 1]), ps[|ps| - 1])
  }

  /** (*URL).Query */
  function Query(raw: Octets): Values { Collect(map[], ParsePairs(raw, true)) }

  /** Byte order of keys. */
  predicate Before(a: Octets, b: Octets) {
    a == [] || (b != [] && (a[0] < b[0] || (a[0] == b[0] && Before(a[1..], b[1..]))))
  }

  lemma {:induction false} BeforeTotal(a: Octets, b: Octets)
    ensures Before(a, b) || Before(b, a)
  {
    if a != [] && b != [] { BeforeTotal(a[1..], b[1..]); }
  }

  lemma {:induction false} BeforeTransitive(a: Octets, b: Octets, c: Octets)
    requires Before(a, b) && Before(b, c)
    ensures Before(a, c)
  {
    if a != [] && a[0] == b[0] == c[0] { BeforeTransitive(a[1..], b[1..], c[1..]); }
  }

  predicate IsFirst(k: Octets, keys: set<Octets>) { k in keys && forall j :: j in keys ==> Before(k, j) }

  lemma {:induction false} FirstExists(keys: set<Octets>)
    requires keys != {}
    ensures exists k :: IsFirst(k, keys)
    decreases |keys|
  {
    var x :| x in keys;
    BeforeTotal(x, x);
    if keys == {x} {
      assert IsFirst(x, keys);
    } else {
      FirstExists(keys - {x});
      var k :| IsFirst(k, keys - {x});
      BeforeTotal(k, x);
      if Before(k, x) {
        assert IsFirst(k, keys);
      } else {
        forall j | j in keys ensures Before(x, j) { if j != x { BeforeTransitive(x, k, j); } }
        assert IsFirst(x, keys);
      }
    }
  }

  ghost function SortedKeys(keys: set<Octets>): seq<Octets>
    decreases |keys|
  {
    if keys == {} then []
    else FirstExists(keys); var k :| IsFirst(k, keys); [k] + SortedKeys(keys - {k})
  }

  ghost predicate Listing(ks: seq<Octets>, keys: set<Octets>) {
    && (forall k :: k in ks <==> k in keys)
    && (forall i, j :: 0 <= i < j < |ks| ==> ks[i] != ks[j] && Before(ks[i], ks[j]))
  }

  /** Every key once, in byte order. */
  lemma {:induction false} SortedKeysList(keys: set<Octets>)
    ensures Listing(SortedKeys(keys), keys)
    decreases |keys|
  {
    if keys != {} {
      var ks := SortedKeys(keys);
      SortedKeysList(keys - {ks[0]});
      assert ks[1..] == SortedKeys(keys - {ks[0]});
      forall k ensures k in ks <==> k in keys { assert k in ks <==> k == ks[0] || k in ks[1..]; }
      forall i, j | 0 <= i < j < |ks| ensures ks[i] != ks[j] && Before(ks[i], ks[j]) {
        assert ks[j] == ks[1..][j - 1] && ks[j] in keys - {ks[0]};
        if i > 0 { assert ks[i] == ks[1..][i - 1]; }
      }
    }
  }

  function KeyPairs(k: Octets, vs: seq<Octets>): seq<Pair> {
    if vs == [] then [] else KeyPairs(k, vs[..|vs| - 1]) + [Pair(k, vs[|vs| - 1])]
  }

  function PairsOf(m: Values, ks: seq<Octets>): seq<Pair>
    requires forall k :: k in ks ==> k in m
  {
    if ks == [] then [] else PairsOf(m, ks[..|ks| - 1]) + KeyPairs(ks[|ks| - 1], m[ks[|ks| - 1]])
  }

  /** Values.Encode */
  ghost function Encode(m: Values): Octets {
    SortedKeysList(m.Keys);
    EncodePairs(PairsOf(m, SortedKeys(m.Keys)))
  }

  lemma {:induction false} CollectConcat(m: Values, a: seq<Pair>, b: seq<Pair>)
    ensures Collect(m, a + b) == Collect(Collect(m, a), b)
  {
    if b == [] {
      assert a + b == a;
    } else {
      CollectConcat(m, a, b[..|b| - 1]);
      assert (a + b)[..|a + b| - 1] == a + b[..|b| - 1];
    }
  }

  lemma CollectOneMore(m: Values, ps: seq<Pair>, p: Pair)
    ensures Collect(m, ps + [p]) == Add(Collect(m, ps), p)
  {
    assert (ps + [p])[..|ps + [p]| - 1] == ps;
  }

  lemma AddToKey(m: Values, k: Octets, vs: seq<Octets>, v: Octets)
    ensures Add(m[k := vs], Pair(k, v)) == m[k := vs + [v]]
  {
  }

  lemma KeyPairsMore(k: Octets, vs: seq<Octets>, v: Octets)
    ensures KeyPairs(k, vs + [v]) == KeyPairs(k, vs) + [Pair(k, v)]
  {
    assert (vs + [v])[..|vs|] == vs;
  }

  lemma CollectFirst(m: Values, k: Octets, v: Octets)
    requires k !in m
    ensures Collect(m, KeyPairs(k, [v])) == m[k := [v]]
  {
    KeyPairsMore(k, [], v);
    CollectOneMore(m, [], Pair(k, v));
    assert [] + [v] == [v];
  }

  lemma CollectNext(m: Values, k: Octets, vs: seq<Octets>, v: Octets)
    requires Collect(m, KeyPairs(k, vs)) == m[k := vs]
    ensures Collect(m, KeyPairs(k, vs + [v])) == m[k := vs + [v]]
  {
    KeyPairsMore(k, vs, v);
    CollectOneMore(m, KeyPairs(k, vs), Pair(k, v));
    AddToKey(m, k, vs, v);
  }

  lemma {:induction false} CollectKey(m: Values, k: Octets, vs: seq<Octets>)
    requires k !in m && vs != []
    ensures Collect(m, KeyPairs(k, vs)) == m[k := vs]
  {
    var init, v := vs[..|vs| - 1], vs[|vs| - 1];
    assert vs == init + [v];
    if init == [] {
      assert vs == [v];
      CollectFirst(m, k, v);
    } else {
      CollectKey(m, k, init);
      CollectNext(m, k, init, v);
    }
  }

  /** No key is without a value: what a parsed query satisfies. */
  predicate Filled(m: Values) { forall k :: k in m ==> m[k] != [] }

  function Restricted(m: Values, ks: seq<Octets>): Values
    requires forall k :: k in ks ==> k in m
  {
    map k | k in ks :: m[k]
  }

  lemma RestrictedMore(m: Values, ks: seq<Octets>, k: Octets)
    requires k in m && forall j :: j in ks ==> j in m
    ensures Restricted(m, ks + [k]) == Restricted(m, ks)[k := m[k]]
  {
  }

  lemma PairsOfMore(m: Values, ks: seq<Octets>, k: Octets)
    requires k in m && forall j :: j in ks ==> j in m
    ensures PairsOf(m, ks + [k]) == PairsOf(m, ks) + KeyPairs(k, m[k])
  {
    assert (ks + [k])[..|ks|] == ks;
  }

  lemma {:induction false} CollectPairs(m: Values, ks: seq<Octets>)
    requires Filled(m) && (forall k :: k in ks ==> k in m) && (forall i, j :: 0 <= i < j < |ks| ==> ks[i] != ks[j])
    ensures Collect(map[], PairsOf(m, ks)) == Restricted(m, ks)
  {
    if ks != [] {
      var init, k := ks[..|ks| - 1], ks[|ks| - 1];
      assert ks == init + [k];
      CollectPairs(m, init);
      PairsOfMore(m, init, k);
      CollectConcat(map[], PairsOf(m, init), KeyPairs(k, m[k]));
      CollectKey(Restricted(m, init), k, m[k]);
      RestrictedMore(m, init, k);
    }
  }

  /** The query of an encoded map is that map. */
  lemma QueryEncode(m: Values)
    requires Filled(m)
    ensures Query(Encode(m)) == m
  {
    SortedKeysList(m.Keys);
    var ks := SortedKeys(m.Keys);
    ParseEncode(PairsOf(m, ks), true);
    CollectPairs(m, ks);
  }

  lemma {:induction false} CollectFills(m: Values, ps: seq<Pair>)
    requires Filled(m)
    ensures Filled(Collect(m, ps))
  {
    if ps != [] { CollectFills(m, ps[..|ps| - 1]); }
  }

  // ----- The link -----

  /** A parsed base URL; `front` is its text up to the query. */
  datatype Base = Base(front: Octets, rawQuery: Octets, fragment: Octets)

  predicate Parsed(base: Base) { '#' !in base.front && '?' !in base.front }

  const USER_ID: Octets := "userId"
  const CODE_ID: Octets := "codeId"
  const CODE: Octets := "code"

  function WithIds(q: Values, userId: Octets, codeId: Octets): Values { q[USER_ID := [userId]][CODE_ID := [codeId]] }

  ghost function ServerPart(base: Base, userId: Octets, codeId: Octets): Octets {
    base.front + ['?'] + Encode(WithIds(Query(base.rawQuery), userId, codeId))
  }

  ghost function ActionURL(base: Base, userId: Octets, codeId: Octets, code: Octets): Octets {
    ServerPart(base, userId, codeId) + ['#'] + EncodePairs([Pair(CODE, code)])
  }

  lemma NoHashBefore(base: Base, userId: Octets, codeId: Octets)
    requires Parsed(base)
    ensures '#' !in ServerPart(base, userId, codeId)
  {
    var m := WithIds(Query(base.rawQuery), userId, codeId);
    SortedKeysList(m.Keys);
    EncodedHasNoHash(PairsOf(m, SortedKeys(m.Keys)));
  }

  /** What a browser keeps to itself: read as a form, the text after the first '#' is exactly the code, and
      there is no second '#'. */
  lemma FragmentIsTheCode(base: Base, userId: Octets, codeId: Octets, code: Octets)
    requires Parsed(base)
    ensures var fragment := Cut(ActionURL(base, userId, codeId, code), '#').1;
      '#' !in fragment && ParsePairs(fragment, false) == [Pair(CODE, code)]
  {
    NoHashBefore(base, userId, codeId);
    CutAt(ServerPart(base, userId, codeId), '#', EncodePairs([Pair(CODE, code)]));
    ParseEncode([Pair(CODE, code)], false);
    EncodedHasNoHash([Pair(CODE, code)]);
  }

  /** What the server gets: the same text for every code, leading to the base's place, with the base's query
      in which userId and codeId are replaced. */
  lemma ServerSeesIdsOnly(base: Base, userId: Octets, codeId: Octets, code: Octets)
    requires Parsed(base)
    ensures var sent := Cut(ActionURL(base, userId, codeId, code), '#').0;
      && sent == Cut(ActionURL(base, userId, codeId, []), '#').0
      && Cut(sent, '?').0 == base.front
      && Query(Cut(sent, '?').1) == WithIds(Query(base.rawQuery), userId, codeId)
  {
    var m := WithIds(Query(base.rawQuery), userId, codeId);
    NoHashBefore(base, userId, codeId);
    CutAt(ServerPart(base, userId, codeId), '#', EncodePairs([Pair(CODE, code)]));
    CutAt(ServerPart(base, userId, codeId), '#', EncodePairs([Pair(CODE, [])]));
    CutAt(base.front, '?', Encode(m));
    CollectFills(map[], ParsePairs(base.rawQuery, true));
    QueryEncode(m);
  }

  /** A fragment of the base URL never reaches the link, and different codes give different links. */
  lemma LinkTellsCode(base: Base, other: Octets, userId: Octets, codeId: Octets, code1: Octets, code2: Octets)
    requires Parsed(base)
    ensures ActionURL(base, userId, codeId, code1) == ActionURL(base.(fragment := other), userId, codeId, code2)
         <==> code1 == code2
  {
    FragmentIsTheCode(base, userId, codeId, code1);
    FragmentIsTheCode(base, userId, codeId, code2);
  }

  // ----- The mail -----

  const SUPPORT := "support"

  datatype Recipient = Recipient(email: string, givenName: string, familyName: string)

  datatype Input = Input(user: Recipient, userId: Octets, codeId: Octets, code: Octets, actionUrl: Octets,
                         template: string, namespace: string, expiryMinutes: int,
                         requestedBy: string, requestedByUser: string, reason: string)

  /** The Email object: identity and labels, the four template variables, the support annotations. */
  datatype Mail = Mail(name: string, namespace: string, labelUser: Octets, labelRequestedBy: string,
                       template: string, recipient: string, userName: string, code: Octets, actionUrl: Octets,
                       expiryMinutes: int, annotations: Option<(string, string)>)

  /** `hash` is the shortened SHA-256 of the two identifiers. */
  function Build(input: Input, hash: (Octets, Octets) -> string): Mail {
    var displayName := Text.TrimSpace(input.user.givenName + " " + input.user.familyName);
    Mail("account-recovery-" + hash(input.userId, input.codeId), input.namespace, input.userId, input.requestedBy,
         input.template, input.user.email,
         if displayName == "" then input.user.email else displayName, input.code, input.actionUrl,
         if input.expiryMinutes <= 0 then 60 else input.expiryMinutes,
         if input.requestedBy == SUPPORT then Some((input.requestedByUser, input.reason)) else None)
  }

  /** The mail both triggers send: the link is built for the same code. */
  ghost function RecoveryMail(input: Input, base: Base, code: Octets, hash: (Octets, Octets) -> string): Mail {
    Build(input.(code := code, actionUrl := ActionURL(base, input.userId, input.codeId, code)), hash)
  }

  /** The code reaches two fields only, and in the link only what follows the '#': two mails for different
      codes agree on everything else, their links agree up to the '#', and each link's fragment reads back
      as the code the mail shows. */
  lemma CodeStaysInTwoFields(input: Input, base: Base, code1: Octets, code2: Octets, hash: (Octets, Octets) -> string)
    requires Parsed(base)
    ensures var m1 := RecoveryMail(input, base, code1, hash);
      var m2 := RecoveryMail(input, base, code2, hash);
      && m1.(code := [], actionUrl := []) == m2.(code := [], actionUrl := [])
      && Cut(m1.actionUrl, '#').0 == Cut(m2.actionUrl, '#').0
      && ParsePairs(Cut(m1.actionUrl, '#').1, false) == [Pair(CODE, m1.code)]
  {
    ServerSeesIdsOnly(base, input.userId, input.codeId, code1);
    ServerSeesIdsOnly(base, input.userId, input.codeId, code2);
    FragmentIsTheCode(base, input.userId, input.codeId, code1);
  }

  /** The fields of the mail: its name, labels and recipient are the user's, the lifetime is a positive number,
      the requester is recorded exactly for support, and the link leads the server to the two identifiers, each
      under its own name. */
  lemma MailFields(input: Input, base: Base, code: Octets, hash: (Octets, Octets) -> string)
    requires Parsed(base)
    ensures var mail := RecoveryMail(input, base, code, hash);
      var query := Query(Cut(Cut(mail.actionUrl, '#').0, '?').1);
      && mail.name == "account-recovery-" + hash(input.userId, input.codeId) && mail.namespace == input.namespace
      && mail.labelUser == input.userId && mail.labelRequestedBy == input.requestedBy
      && mail.recipient == input.user.email && mail.template == input.template && mail.code == code
      && mail.expiryMinutes > 0 && (input.expiryMinutes > 0 ==> mail.expiryMinutes == input.expiryMinutes)
      && (mail.annotations.Some? <==> input.requestedBy == "support")
      && (mail.annotations.Some? ==> mail.annotations.value == (input.requestedByUser, input.reason))
      && "userId" in query && query["userId"] == [input.userId]
      && "codeId" in query && query["codeId"] == [input.codeId]
  {
    ServerSeesIdsOnly(base, input.userId, input.codeId, code);
    assert USER_ID[0] != CODE_ID[0];
  }

  /** The name the mail greets with: the two names without the blanks around them, or, if both are blank, the
      address. */
  lemma MailName(input: Input, hash: (Octets, Octets) -> string, b1: string, name: string, b2: string)
    requires Text.Blank(b1) && Text.Blank(b2) && Text.Trimmed(name)
    requires input.user.givenName + " " + input.user.familyName == b1 + name + b2
    ensures Build(input, hash).userName == if name == "" then input.user.email else name
  {
    Text.TrimSpaceIs(b1, name, b2);
  }
}
