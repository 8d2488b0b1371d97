/**
 The byte string hashed to fingerprint a configuration bundle: a domain tag, a count, and length-prefixed entries
 for the root body and the strategy files in path order (src/bolt_v3_config.rs).
 */
module ConfigBundle {
  import opened Common
  import opened ByteStrings

  // ---------- Entries ----------

  datatype Entry = Entry(kind: Byte, key: Bytes, content: Bytes)

  /** Lengths that fit their prefixes. */
  predicate Fits(e: Entry) {
    |e.key| < Pow256(4) && |e.content| < Pow256(8)
  }

  /** Key or content behind its length. */
  function Prefixed(width: nat, s: Bytes): Bytes {
    BigEndian(|s|, width) + s
  }

  function EncodeEntry(e: Entry): Bytes {
    [e.kind] + (Prefixed(4, e.key) + Prefixed(8, e.content))
  }

  function EncodeEntries(es: seq<Entry>): Bytes {
    if es == [] then [] else EncodeEntry(es[0]) + EncodeEntries(es[1..])
  }

  /** A length-prefixed string is found again whatever follows it. */
  lemma {:induction false} PrefixedParses(width: nat, s: Bytes, x: Bytes, t: Bytes, y: Bytes)
    requires |s| < Pow256(width) && |t| < Pow256(width)
    requires Prefixed(width, s) + x == Prefixed(width, t) + y
    ensures s == t && x == y
  {
    var n, m := BigEndian(|s|, width), BigEndian(|t|, width);
    Associate(n, s, x);
    Associate(m, t, y);
    SplitEqual(n, s + x, m, t + y);
    BigEndianInjective(|s|, |t|, width);
    SplitEqual(s, x, t, y);
  }

  lemma EncodeEntrySplits(e: Entry, x: Bytes)
    ensures EncodeEntry(e) + x == [e.kind] + (Prefixed(4, e.key) + (Prefixed(8, e.content) + x))
  {
    var k, c := Prefixed(4, e.key), Prefixed(8, e.content);
    assert [e.kind] + (k + c) + x == [e.kind] + (k + (c + x));
  }

  /** The first entry of an encoding is determined, and so is the rest. */
  lemma EntryParses(a: Entry, x: Bytes, b: Entry, y: Bytes)
    requires Fits(a) && Fits(b) && EncodeEntry(a) + x == EncodeEntry(b) + y
    ensures a == b && x == y
  {
    var afterA, afterB := Prefixed(8, a.content) + x, Prefixed(8, b.content) + y;
    EncodeEntrySplits(a, x);
    EncodeEntrySplits(b, y);
    SplitEqual([a.kind], Prefixed(4, a.key) + afterA, [b.kind], Prefixed(4, b.key) + afterB);
    assert [a.kind][0] == [b.kind][0];
    PrefixedParses(4, a.key, afterA, b.key, afterB);
    PrefixedParses(8, a.content, x, b.content, y);
  }

  /** Equally many entries with equal encodings are equal: no boundary can move. */
  lemma {:induction false} EntriesInjective(a: seq<Entry>, b: seq<Entry>)
    requires |a| == |b| && (forall e :: e in a ==> Fits(e)) && (forall e :: e in b ==> Fits(e))
    requires EncodeEntries(a) == EncodeEntries(b)
    ensures a == b
    decreases |a|
  {
    if a != [] {
      EntryParses(a[0], EncodeEntries(a[1..]), b[0], EncodeEntries(b[1..]));
      EntriesInjective(a[1..], b[1..]);
      assert a == [a[0]] + a[1..] && b == [b[0]] + b[1..];
    }
  }

  // ---------- Path order ----------

  datatype Strategy = Strategy(path: Bytes, text: Bytes)

  /** Byte-wise lexicographic order, strict. */
  predicate Before(a: Bytes, b: Bytes) {
    b != [] && (a == [] || a[0] < b[0] || (a[0] == b[0] && Before(a[1..], b[1..])))
  }

  lemma {:induction false} BeforeTotal(a: Bytes, b: Bytes)
    ensures Before(a, b) || a == b || Before(b, a)
    decreases |a|
  {
    if a != [] && b != [] && a[0] == b[0] {
      BeforeTotal(a[1..], b[1..]);
      assert a == [a[0]] + a[1..] && b == [b[0]] + b[1..];
    }
  }

  lemma {:induction false} BeforeTransitive(a: Bytes, b: Bytes, c: Bytes)
    requires Before(a, b) && Before(b, c)
    ensures Before(a, c)
    decreases |a|
  {
    if a != [] && a[0] == b[0] == c[0] {
      BeforeTransitive(a[1..], b[1..], c[1..]);
    }
  }

  lemma {:induction false} BeforeIrreflexive(a: Bytes)
    ensures !Before(a, a)
    decreases |a|
  {
    if a != [] {
      BeforeIrreflexive(a[1..]);
    }
  }

  lemma NotBeforeTransitive(a: Bytes, b: Bytes, c: Bytes)
    requires !Before(b, a) && !Before(c, b)
    ensures !Before(c, a)
  {
    BeforeTotal(b, c);
    if Before(c, a) && Before(b, c) {
      BeforeTransitive(b, c, a);
    }
  }

  predicate InPathOrder(s: seq<Strategy>) {
    forall i, j :: 0 <= i < j < |s| ==> !Before(s[j].path, s[i].path)
  }

  predicate PathsDistinct(s: seq<Strategy>) {
    forall i, j :: 0 <= i < j < |s| ==> s[i].path != s[j].path
  }

  /** Insert before the first entry whose path comes later, so equal paths keep their order. */
  function Insert(x: Strategy, s: seq<Strategy>): (r: seq<Strategy>)
    ensures |r| == |s| + 1 && multiset(r) == multiset(s) + multiset{x}
  {
    if s == [] then [x]
    else if Before(s[0].path, x.path) then
      var r := [s[0]] + Insert(x, s[1..]);
      assert s == [s[0]] + s[1..];
      r
    else [x] + s
  }

  /** The stable sort by path. */
  function SortByPath(s: seq<Strategy>): (r: seq<Strategy>)
    ensures |r| == |s| && multiset(r) == multiset(s)
  {
    if s == [] then []
    else
      var r := Insert(s[0], SortByPath(s[1..]));
      assert s == [s[0]] + s[1..];
      r
  }

  lemma {:induction false} InsertKeepsOrder(x: Strategy, s: seq<Strategy>)
    requires InPathOrder(s)
    ensures InPathOrder(Insert(x, s))
    decreases |s|
  {
    if s != [] && Before(s[0].path, x.path) {
      InsertKeepsOrder(x, s[1..]);
      HeadFirst(s[0], Insert(x, s[1..]), x, s[1..]);
    } else if s != [] {
      NotAfterHead(x, s);
    }
  }

  lemma HeadFirst(h: Strategy, rest: seq<Strategy>, x: Strategy, tail: seq<Strategy>)
    requires InPathOrder([h] + tail) && InPathOrder(rest) && Before(h.path, x.path)
    requires multiset(rest) == multiset(tail) + multiset{x}
    ensures InPathOrder([h] + rest)
  {
    forall j | 0 <= j < |rest| ensures !Before(rest[j].path, h.path) {
      assert rest[j] in multiset(rest);
      if rest[j] in tail {
        var k :| 0 <= k < |tail| && tail[k] == rest[j];
        assert ([h] + tail)[k + 1] == tail[k] && ([h] + tail)[0] == h;
      } else {
        assert rest[j] == x;
        if Before(x.path, h.path) {
          BeforeTransitive(x.path, h.path, x.path);
          BeforeIrreflexive(x.path);
        }
      }
    }
  }

  lemma NotAfterHead(x: Strategy, s: seq<Strategy>)
    requires s != [] && InPathOrder(s) && !Before(s[0].path, x.path)
    ensures InPathOrder([x] + s)
  {
    forall j | 0 <= j < |s| ensures !Before(s[j].path, x.path) {
      if j > 0 {
        NotBeforeTransitive(x.path, s[0].path, s[j].path);
      }
    }
  }

  lemma {:induction false} SortIsOrdered(s: seq<Strategy>)
    ensures InPathOrder(SortByPath(s))
    decreases |s|
  {
    if s != [] {
      SortIsOrdered(s[1..]);
      InsertKeepsOrder(s[0], SortByPath(s[1..]));
    }
  }

  /** A path names one entry. */
  ghost predicate PathsIdentify(all: set<Strategy>) {
    forall x, y :: x in all && y in all && x.path == y.path ==> x == y
  }

  ghost predicate Within(s: seq<Strategy>, all: set<Strategy>) {
    forall i :: 0 <= i < |s| ==> s[i] in all
  }

  /** Two ordered listings of the same entries agree when a path names one entry. */
  lemma {:induction false} OrderIsUnique(all: set<Strategy>, a: seq<Strategy>, b: seq<Strategy>)
    requires PathsIdentify(all) && Within(a, all) && Within(b, all)
    requires InPathOrder(a) && InPathOrder(b) && multiset(a) == multiset(b)
    ensures a == b
    decreases |a|
  {
    if a == [] {
      assert |multiset(b)| == 0;
    } else {
      HeadsAgree(all, a, b);
      TailIsOrdered(all, a);
      TailIsOrdered(all, b);
      OrderIsUnique(all, a[1..], b[1..]);
      assert a == [a[0]] + a[1..] && b == [b[0]] + b[1..];
    }
  }

  lemma TailIsOrdered(all: set<Strategy>, a: seq<Strategy>)
    requires a != [] && InPathOrder(a) && Within(a, all)
    ensures InPathOrder(a[1..]) && Within(a[1..], all)
    ensures multiset(a[1..]) == multiset(a) - multiset{a[0]}
  {
    assert a == [a[0]] + a[1..];
  }

  lemma HeadsAgree(all: set<Strategy>, a: seq<Strategy>, b: seq<Strategy>)
    requires PathsIdentify(all) && Within(a, all) && Within(b, all)
    requires a != [] && InPathOrder(a) && InPathOrder(b) && multiset(a) == multiset(b)
    ensures b != [] && a[0] == b[0]
  {
    assert |multiset(a)| == |multiset(b)|;
    assert a[0] in multiset(b) && b[0] in multiset(a);
    var i :| 0 <= i < |b| && b[i] == a[0];
    var j :| 0 <= j < |a| && a[j] == b[0];
    BeforeTotal(a[0].path, b[0].path);
    BeforeIrreflexive(a[0].path);
  }

  /** Every ordering of strategies with distinct paths sorts to the same listing. */
  lemma SortIgnoresOrder(a: seq<Strategy>, b: seq<Strategy>)
    requires multiset(a) == multiset(b) && PathsDistinct(a)
    ensures SortByPath(a) == SortByPath(b)
  {
    SortIsOrdered(a);
    SortIsOrdered(b);
    var all := set x | x in a;
    forall x, y | x in all && y in all && x.path == y.path ensures x == y {
      var i :| 0 <= i < |a| && a[i] == x;
      var j :| 0 <= j < |a| && a[j] == y;
      assert i == j;
    }
    AllWithin(a, SortByPath(a));
    AllWithin(a, SortByPath(b));
    OrderIsUnique(all, SortByPath(a), SortByPath(b));
  }

  lemma AllWithin(a: seq<Strategy>, b: seq<Strategy>)
    requires multiset(a) == multiset(b)
    ensures Within(b, set x | x in a)
  {
    forall i | 0 <= i < |b| ensures b[i] in a {
      assert b[i] in multiset(a);
    }
  }

  // ---------- The generated header ----------

  const NEWLINE: Byte := 10

  /** The first line of a text, with its line break if it has one. */
  function FirstLine(text: Bytes): (n: nat)
    ensures n <= |text| && (text != [] ==> n > 0)
  {
    if text == [] then 0
    else if text[0] == NEWLINE then 1
    else 1 + FirstLine(text[1..])
  }

  /** How many bytes the white-space character at the head of a UTF-8 text takes; 0 when there is none. */
  function WhitespaceWidth(s: Bytes): (n: nat)
    ensures n <= |s|
  {
    if s != [] && (9 <= s[0] <= 13 || s[0] == 0x20) then 1
    else if |s| >= 2 && s[0] == 0xC2 && (s[1] == 0x85 || s[1] == 0xA0) then 2
    else if |s| >= 3 && s[0] == 0xE1 && s[1] == 0x9A && s[2] == 0x80 then 3
    else if |s| >= 3 && s[0] == 0xE2 && s[1] == 0x80
            && (0x80 <= s[2] <= 0x8A || s[2] == 0xA8 || s[2] == 0xA9 || s[2] == 0xAF) then 3
    else if |s| >= 3 && s[0] == 0xE2 && s[1] == 0x81 && s[2] == 0x9F then 3
    else if |s| >= 3 && s[0] == 0xE3 && s[1] == 0x80 && s[2] == 0x80 then 3
    else 0
  }

  /** A character of the basic plane in UTF-8 (section 3 of RFC 3629). */
  function Utf8(character: char): Bytes
    requires character < '\U{10000}'
  {
    var c := character as int;
    if c < 0x80 then [c as Byte]
    else if c < 0x800 then [(0xC0 + c / 64) as Byte, (0x80 + c % 64) as Byte]
    else [(0xE0 + c / 4096) as Byte, (0x80 + c / 64 % 64) as Byte, (0x80 + c % 64) as Byte]
  }

  /** Exactly the white-space characters are taken, each at its encoded length. */
  lemma WhitespaceExactly(s: Bytes, c: char)
    requires c < '\U{10000}' && Utf8(c) <= s
    ensures WhitespaceWidth(s) == if IsWhitespace(c) then |Utf8(c)| else 0
  {
    var u := Utf8(c);
    assert forall i :: 0 <= i < |u| ==> s[i] == u[i];
  }

  lemma BlankAscii(s: Bytes)
    requires forall i :: 0 <= i < |s| ==> s[i] < 0x80
    ensures Blank(s) <==> forall i :: 0 <= i < |s| ==> 9 <= s[i] <= 13 || s[i] == 0x20
    decreases |s|
  {
    if s != [] && WhitespaceWidth(s) > 0 {
      BlankAscii(s[1..]);
      assert forall i :: 0 < i < |s| ==> s[i] == s[1..][i - 1];
    }
  }

  predicate Blank(s: Bytes)
    decreases |s|
  {
    s == [] || (WhitespaceWidth(s) > 0 && Blank(s[WhitespaceWidth(s)..]))
  }

  /** What follows the first blank line. */
  function AfterBlankLine(text: Bytes): Option<Bytes>
    decreases |text|
  {
    if text == [] then None
    else
      var n := FirstLine(text);
      if Blank(text[..n]) then Some(text[n..]) else AfterBlankLine(text[n..])
  }

  /** "# bolt-v2:generated-live-config format=" */
  const MARKER: Bytes := [
    35, 32, 98, 111, 108, 116, 45, 118, 50, 58, 103, 101, 110, 101, 114, 97, 116, 101, 100, 45, 108, 105, 118, 101, 45,
    99, 111, 110, 102, 105, 103, 32, 102, 111, 114, 109, 97, 116, 61]

  function LiveConfigBody(text: Bytes): Bytes {
    if !(MARKER <= text) then text
    else match AfterBlankLine(text)
      case Some(body) => body
      case None => text
  }

  /** Walk the lines, moving the offset, until the blank one. */
  method GeneratedLiveConfigBody(text: Bytes) returns (body: Bytes)
    ensures body == LiveConfigBody(text)
  {
    if !(MARKER <= text) {
      return text;
    }
    var offset := 0;
    while offset < |text|
      invariant offset <= |text|
      invariant AfterBlankLine(text[offset..]) == AfterBlankLine(text)
    {
      var n := FirstLine(text[offset..]);
      var line := text[offset..][..n];
      assert text[offset..][n..] == text[offset + n..];
      offset := offset + n;
      if Blank(line) {
        return text[offset..];
      }
    }
    return text;
  }

  /** A complete line: one line break, at its end. */
  predicate IsLine(line: Bytes) {
    line != [] && line[|line| - 1] == NEWLINE && forall i :: 0 <= i < |line| - 1 ==> line[i] != NEWLINE
  }

  function Join(lines: seq<Bytes>): Bytes {
    if lines == [] then [] else lines[0] + Join(lines[1..])
  }

  predicate HeaderLines(lines: seq<Bytes>) {
    forall i :: 0 <= i < |lines| ==> IsLine(lines[i]) && !Blank(lines[i])
  }

  lemma {:induction false} FirstLineOf(line: Bytes, rest: Bytes)
    requires IsLine(line)
    ensures FirstLine(line + rest) == |line|
    decreases |line|
  {
    if |line| == 1 {
      assert (line + rest)[0] == NEWLINE;
    } else {
      assert (line + rest)[0] == line[0] && (line + rest)[1..] == line[1..] + rest;
      FirstLineOf(line[1..], rest);
    }
  }

  /** Non-blank lines, a blank one, then anything: what is kept is the rest, whatever the lines were. */
  lemma {:induction false} HeaderIsSkipped(lines: seq<Bytes>, blank: Bytes, body: Bytes)
    requires HeaderLines(lines) && IsLine(blank) && Blank(blank)
    ensures AfterBlankLine(Join(lines) + blank + body) == Some(body)
    decreases |lines|
  {
    if lines == [] {
      FirstLineOf(blank, body);
      assert Join(lines) + blank + body == blank + body;
      assert (blank + body)[..|blank|] == blank && (blank + body)[|blank|..] == body;
    } else {
      var rest := Join(lines[1..]) + blank + body;
      var text := Join(lines) + blank + body;
      assert text == lines[0] + rest;
      FirstLineOf(lines[0], rest);
      assert (lines[0] + rest)[..|lines[0]|] == lines[0] && (lines[0] + rest)[|lines[0]|..] == rest;
      HeaderIsSkipped(lines[1..], blank, body);
    }
  }

  /** Without a blank line nothing is skipped; a blank rest without a line break leaves an empty body. */
  lemma {:induction false} NoBlankLine(lines: seq<Bytes>, rest: Bytes)
    requires HeaderLines(lines) && NEWLINE !in rest
    ensures AfterBlankLine(Join(lines) + rest) == if rest != [] && Blank(rest) then Some([]) else None
    decreases |lines|
  {
    if lines == [] {
      assert Join(lines) + rest == rest;
      OneLine(rest);
      assert rest[..|rest|] == rest && rest[|rest|..] == [];
    } else {
      var more := Join(lines[1..]) + rest;
      assert Join(lines) + rest == lines[0] + more;
      FirstLineOf(lines[0], more);
      assert (lines[0] + more)[..|lines[0]|] == lines[0] && (lines[0] + more)[|lines[0]|..] == more;
      NoBlankLine(lines[1..], rest);
    }
  }

  lemma {:induction false} OneLine(text: Bytes)
    requires NEWLINE !in text
    ensures FirstLine(text) == |text|
    decreases |text|
  {
    if text != [] {
      assert text[0] in text && forall b :: b in text[1..] ==> b in text;
      OneLine(text[1..]);
    }
  }

  /** What is fingerprinted of a root file: all of it unless it is marked and has a blank line. */
  lemma BodyKept(lines: seq<Bytes>, rest: Bytes, text: Bytes)
    requires HeaderLines(lines) && NEWLINE !in rest && !Blank(rest)
    ensures LiveConfigBody(Join(lines) + rest) == Join(lines) + rest
    ensures !(MARKER <= text) ==> LiveConfigBody(text) == text
  {
    NoBlankLine(lines, rest);
  }

  // ---------- The preimage ----------

  /** "bolt-v3.config-bundle.v1" and a line break. */
  const DOMAIN: Bytes := [
    98, 111, 108, 116, 45, 118, 51, 46, 99, 111, 110, 102, 105, 103, 45, 98, 117, 110, 100, 108, 101, 46, 118, 49, 10]

  /** "root" */
  const ROOT_KEY: Bytes := [114, 111, 111, 116]

  function StrategyEntries(s: seq<Strategy>): (es: seq<Entry>)
    ensures |es| == |s|
  {
    seq(|s|, i requires 0 <= i < |s| => Entry(1, s[i].path, s[i].text))
  }

  function BundleEntries(root: Bytes, strategies: seq<Strategy>): (es: seq<Entry>)
    ensures |es| == |strategies| + 1
  {
    [Entry(0, ROOT_KEY, LiveConfigBody(root))] + StrategyEntries(SortByPath(strategies))
  }

  /** What is hashed. */
  function Preimage(root: Bytes, strategies: seq<Strategy>): Bytes {
    DOMAIN + (BigEndian(|strategies| + 1, 4) + EncodeEntries(BundleEntries(root, strategies)))
  }

  /** The bytes of a bundle with no strategy. */
  lemma Layout(root: Bytes)
    ensures var body := LiveConfigBody(root);
            var head := [0, 0, 0, 1] + [0] + [0, 0, 0, 4] + [114, 111, 111, 116];
            Preimage(root, []) == DOMAIN + head + (BigEndian(|body|, 8) + body)
  {
    var body := LiveConfigBody(root);
    var e := Entry(0, ROOT_KEY, body);
    assert BundleEntries(root, []) == [e];
    OneEntry(e);
    SmallNumber(1);
    SmallNumber(4);
    Regroup(DOMAIN, BigEndian(1, 4), [e.kind], BigEndian(4, 4), ROOT_KEY, Prefixed(8, body));
  }

  lemma OneEntry(e: Entry)
    ensures EncodeEntries([e]) == EncodeEntry(e)
  {
    assert [e][1..] == [];
    assert EncodeEntries([e]) == EncodeEntry(e) + [];
  }

  lemma Regroup(a: Bytes, b: Bytes, c: Bytes, d: Bytes, e: Bytes, f: Bytes)
    ensures a + (b + (c + ((d + e) + f))) == a + (b + c + d + e) + f
  {
    assert b + (c + ((d + e) + f)) == b + c + d + e + f;
    assert a + (b + c + d + e + f) == a + (b + c + d + e) + f;
  }

  lemma SmallNumber(n: nat)
    requires n < 256
    ensures BigEndian(n, 4) == [0, 0, 0, n as Byte]
  {
    assert BigEndian(0, 1) == [0];
    assert BigEndian(0, 2) == [0, 0];
    assert BigEndian(0, 3) == [0, 0, 0];
  }

  predicate BundleFits(root: Bytes, strategies: seq<Strategy>) {
    && |strategies| + 1 < Pow256(4)
    && |LiveConfigBody(root)| < Pow256(8)
    && forall s :: s in strategies ==> |s.path| < Pow256(4) && |s.text| < Pow256(8)
  }

  lemma EntriesFit(root: Bytes, strategies: seq<Strategy>)
    requires BundleFits(root, strategies)
    ensures forall e :: e in BundleEntries(root, strategies) ==> Fits(e)
  {
    var sorted := SortByPath(strategies);
    assert Pow256(4) > 4 by {
      assert Pow256(2) == 65536;
    }
    forall i | 0 <= i < |sorted| ensures Fits(StrategyEntries(sorted)[i]) {
      assert sorted[i] in multiset(strategies);
    }
  }

  lemma StrategyEntriesInjective(a: seq<Strategy>, b: seq<Strategy>)
    requires StrategyEntries(a) == StrategyEntries(b)
    ensures a == b
  {
    assert |a| == |b|;
    forall i | 0 <= i < |a| ensures a[i] == b[i] {
      assert StrategyEntries(a)[i] == StrategyEntries(b)[i];
    }
  }

  /** Equal preimages come from the same root body and the same strategies. */
  lemma PreimageDetermines(r: Bytes, a: seq<Strategy>, q: Bytes, b: seq<Strategy>)
    requires BundleFits(r, a) && BundleFits(q, b) && Preimage(r, a) == Preimage(q, b)
    ensures LiveConfigBody(r) == LiveConfigBody(q) && multiset(a) == multiset(b)
  {
    var x, y := BundleEntries(r, a), BundleEntries(q, b);
    SplitEqual(DOMAIN, BigEndian(|a| + 1, 4) + EncodeEntries(x), DOMAIN, BigEndian(|b| + 1, 4) + EncodeEntries(y));
    SplitEqual(BigEndian(|a| + 1, 4), EncodeEntries(x), BigEndian(|b| + 1, 4), EncodeEntries(y));
    BigEndianInjective(|a| + 1, |b| + 1, 4);
    EntriesFit(r, a);
    EntriesFit(q, b);
    EntriesInjective(x, y);
    assert x[0] == y[0] && x[1..] == y[1..];
    StrategyEntriesInjective(SortByPath(a), SortByPath(b));
    assert multiset(SortByPath(a)) == multiset(a) && multiset(SortByPath(b)) == multiset(b);
  }

  /**
   The fingerprinted bytes identify the bundle: for distinct paths and lengths that fit, two bundles have the same
   bytes exactly when their root bodies agree and their strategies are the same up to order.
   */
  lemma PreimageIdentifiesBundle(r: Bytes, a: seq<Strategy>, q: Bytes, b: seq<Strategy>)
    requires BundleFits(r, a) && BundleFits(q, b) && PathsDistinct(a) && PathsDistinct(b)
    ensures Preimage(r, a) == Preimage(q, b) <==> LiveConfigBody(r) == LiveConfigBody(q) && multiset(a) == multiset(b)
  {
    if Preimage(r, a) == Preimage(q, b) {
      PreimageDetermines(r, a, q, b);
    }
    if LiveConfigBody(r) == LiveConfigBody(q) && multiset(a) == multiset(b) {
      SortIgnoresOrder(a, b);
      assert |a| == |multiset(a)| == |b|;
    }
  }

  /** Regenerating the header of a generated root file never changes the fingerprint. */
  lemma HeaderDoesNotMatter(
    lines: seq<Bytes>, blank: Bytes, others: seq<Bytes>, otherBlank: Bytes, body: Bytes, strategies: seq<Strategy>)
    requires HeaderLines(lines) && IsLine(blank) && Blank(blank) && MARKER <= Join(lines)
    requires HeaderLines(others) && IsLine(otherBlank) && Blank(otherBlank) && MARKER <= Join(others)
    ensures Preimage(Join(lines) + blank + body, strategies) == Preimage(Join(others) + otherBlank + body, strategies)
  {
    HeaderIsSkipped(lines, blank, body);
    HeaderIsSkipped(others, otherBlank, body);
    assert MARKER <= Join(lines) + blank + body && MARKER <= Join(others) + otherBlank + body;
  }

  // ---------- Collecting the strategy files ----------

  /** What a path gives: no file, one that cannot be read or parsed, or a strategy's text. */
  datatype FileRead = Missing | Unusable | Readable(text: Bytes)

  /** Loading stops at an unusable file, else ends with the strategies read and the path errors met. */
  datatype Loading = Aborted | Loaded(strategies: seq<Strategy>, pathErrors: nat)

  /** A path is an error for repeating an earlier one or for naming no file. */
  predicate IsPathError(files: seq<Bytes>, read: Bytes -> FileRead, i: nat)
    requires i < |files|
  {
    files[i] in files[..i] || read(files[i]).Missing?
  }

  /** The strategies read are the files, in order, with their texts. */
  ghost predicate ReadInOrder(files: seq<Bytes>, read: Bytes -> FileRead, strategies: seq<Strategy>) {
    && |strategies| == |files|
    && forall i :: 0 <= i < |files| ==> strategies[i].path == files[i] && read(files[i]) == Readable(strategies[i].text)
  }

  lemma DistinctByPrefix(files: seq<Bytes>)
    ensures Distinct(files) <==> forall i :: 0 <= i < |files| ==> files[i] !in files[..i]
  {
    forall i | 0 <= i < |files| && Distinct(files) ensures files[i] !in files[..i] {
    }
    if forall i :: 0 <= i < |files| ==> files[i] !in files[..i] {
      forall i, j | 0 <= i < j < |files| ensures files[i] != files[j] {
        assert files[..j][i] == files[i];
      }
    }
  }

  /**
   Read the listed files in order. A repeated or missing path is an error that does not stop the loop, a file that is
   there and cannot be used does. Without errors the paths are distinct and the strategies are the files.
   */
  method CollectStrategies(files: seq<Bytes>, read: Bytes -> FileRead) returns (r: Loading)
    ensures r.Aborted? <==> exists i :: 0 <= i < |files| && read(files[i]).Unusable?
    ensures r.Loaded? ==> (r.pathErrors == 0 <==> forall i :: 0 <= i < |files| ==> !IsPathError(files, read, i))
    ensures r.Loaded? && r.pathErrors == 0 ==> Distinct(files) && ReadInOrder(files, read, r.strategies)
  {
    var strategies: seq<Strategy>, errors := [], 0;
    var seen: set<Bytes> := {};
    for i := 0 to |files|
      invariant forall p :: p in seen <==> p in files[..i]
      invariant forall j :: 0 <= j < i ==> !read(files[j]).Unusable?
      invariant errors == 0 <==> forall j :: 0 <= j < i ==> !IsPathError(files, read, j)
      invariant errors == 0 ==> ReadInOrder(files[..i], read, strategies)
    {
      assert files[..i + 1] == files[..i] + [files[i]];
      var path := files[i];
      if path in seen {
        assert IsPathError(files, read, i);
        ghost var k :| 0 <= k < i && files[k] == path;
        errors := errors + 1;
      } else {
        seen := seen + {path};
        match read(path)
        case Missing =>
          assert IsPathError(files, read, i);
          errors := errors + 1;
        case Unusable =>
          return Aborted;
        case Readable(text) =>
          strategies := strategies + [Strategy(path, text)];
      }
    }
    assert files[..|files|] == files;
    forall i | 0 <= i < |files| && errors == 0 ensures files[i] !in files[..i] {
      assert !IsPathError(files, read, i);
    }
    DistinctByPrefix(files);
    return Loaded(strategies, errors);
  }

  /** So what is fingerprinted has distinct paths. */
  lemma LoadedPathsAreDistinct(files: seq<Bytes>, read: Bytes -> FileRead, strategies: seq<Strategy>)
    requires Distinct(files) && ReadInOrder(files, read, strategies)
    ensures PathsDistinct(strategies)
  {
    forall i, j | 0 <= i < j < |strategies| ensures strategies[i].path != strategies[j].path {
      assert files[i] != files[j];
    }
  }
}
