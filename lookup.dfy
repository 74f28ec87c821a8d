/**
 * The lookup client of the object browser: it reshapes the positional tuples
 * that the lookup service returns into named records.
 *
 *  - a commit arrives as `[tree, parent, [author, ts, tz], [committer, ts, tz], message]`
 *    and becomes a `Commit` whose timestamps are milliseconds;
 *  - a tree arrives as nested arrays `[[mode, name, hash | subarray], ...]` and is
 *    decoded recursively into leaves and subtrees;
 *  - the map listing arrives as `[{name}, ...]` and is reduced to its distinct names.
 *
 * The HTTP request itself is not modelled: every operation takes the decoded JSON
 * response as a parameter.
 */
module Lookup {

  // ---------------------------------------------------------------------------
  // Decimal timestamps (`parseInt` on a string of decimal digits)
  // ---------------------------------------------------------------------------

  predicate IsDigit(c: char) {
    '0' <= c <= '9'
  }

  /** A non-empty string of decimal digits: the only timestamps this model parses. */
  predicate IsDecimal(s: string) {
    |s| > 0 && forall i :: 0 <= i < |s| ==> IsDigit(s[i])
  }

  /** No leading zero, as the lookup service writes a number of seconds. */
  predicate IsCanonical(s: string) {
    |s| <= 1 || s[0] != '0'
  }

  function DigitValue(c: char): (d: nat)
    requires IsDigit(c)
    ensures d < 10
  {
    c as int - '0' as int
  }

  function DigitChar(d: nat): (c: char)
    requires d < 10
    ensures IsDigit(c) && DigitValue(c) == d
  {
    ('0' as int + d) as char
  }

  /**
   * `parseInt(s)` for a string of decimal digits: the digits are accumulated from
   * left to right, `value * 10 + digit`, so the last digit is added last.
   */
  function ParseDecimal(s: string): (n: nat)
    requires IsDecimal(s)
    decreases |s|
  {
    if |s| == 1 then DigitValue(s[0])
    else ParseDecimal(s[..|s| - 1]) * 10 + DigitValue(s[|s| - 1])
  }

  /** The decimal notation of `n`, as the lookup service prints a timestamp. */
  function DecimalString(n: nat): (s: string)
    ensures IsDecimal(s) && IsCanonical(s)
  {
    if n < 10 then [DigitChar(n)]
    else DecimalString(n / 10) + [DigitChar(n % 10)]
  }

  /** Parsing the notation of a number gives the number back. */
  lemma {:induction false} ParseDecimalString(n: nat)
    ensures ParseDecimal(DecimalString(n)) == n
  {
    if n >= 10 {
      var s := DecimalString(n);
      assert s[..|s| - 1] == DecimalString(n / 10);
      ParseDecimalString(n / 10);
    }
  }

  lemma {:induction false} ParseDecimalPositive(s: string)
    requires IsDecimal(s) && s[0] != '0'
    ensures ParseDecimal(s) > 0
  {
    if |s| > 1 {
      ParseDecimalPositive(s[..|s| - 1]);
    }
  }

  /** A canonical digit string is the notation of the number it parses to. */
  lemma {:induction false} DecimalStringOfParse(s: string)
    requires IsDecimal(s) && IsCanonical(s)
    ensures DecimalString(ParseDecimal(s)) == s
  {
    if |s| > 1 {
      var init := s[..|s| - 1];
      ParseDecimalPositive(init);
      DecimalStringOfParse(init);
      var n := ParseDecimal(s);
      assert n / 10 == ParseDecimal(init) && n % 10 == DigitValue(s[|s| - 1]);
      assert s == init + [s[|s| - 1]];
    }
  }

  // ---------------------------------------------------------------------------
  // getCommit
  // ---------------------------------------------------------------------------

  /** `[name, timestamp, timezone]`: a person and a time, in seconds, as text. */
  datatype Signature = Signature(name: string, timestamp: string, timezone: string)

  /** The 5-tuple `[tree, parent, author, committer, message]` of the commit lookup. */
  datatype RawCommit = RawCommit(
    tree: string,
    parent: string,
    author: Signature,
    committer: Signature,
    message: string)

  /** `LookupCommit`; the two dates are milliseconds since the epoch. */
  datatype Commit = Commit(
    hash: string,
    tree: string,
    parent: string,
    author: string,
    authoredAt: int,
    committer: string,
    committedAt: int,
    message: string)

  /** `parseInt(timestamp) * 1000`: a time in seconds becomes milliseconds. */
  function SecondsToMillis(timestamp: string): (ms: nat)
    requires IsDecimal(timestamp)
    ensures ms % 1000 == 0 && ms / 1000 == ParseDecimal(timestamp)
  {
    ParseDecimal(timestamp) * 1000
  }

  /**
   * `getCommit(key)`: the record takes the requested key as its hash, copies the
   * tree, parent, names and message, converts both timestamps to milliseconds and
   * drops both timezones.
   */
  function GetCommit(key: string, raw: RawCommit): (c: Commit)
    requires IsDecimal(raw.author.timestamp) && IsDecimal(raw.committer.timestamp)
    ensures c.hash == key
    ensures c.tree == raw.tree && c.parent == raw.parent && c.message == raw.message
    ensures c.author == raw.author.name && c.committer == raw.committer.name
    ensures c.authoredAt == ParseDecimal(raw.author.timestamp) * 1000
    ensures c.committedAt == ParseDecimal(raw.committer.timestamp) * 1000
  {
    Commit(
      key,
      raw.tree,
      raw.parent,
      raw.author.name,
      SecondsToMillis(raw.author.timestamp),
      raw.committer.name,
      SecondsToMillis(raw.committer.timestamp),
      raw.message)
  }

  /** A commit whose dates are whole, non-negative seconds, as the service stores them. */
  predicate HasWholeSeconds(c: Commit) {
    c.authoredAt >= 0 && c.authoredAt % 1000 == 0 &&
    c.committedAt >= 0 && c.committedAt % 1000 == 0
  }

  /** The tuple the lookup service sends for a commit, given the two timezones. */
  function EncodeCommit(c: Commit, authorTimezone: string, committerTimezone: string): (raw: RawCommit)
    requires HasWholeSeconds(c)
    ensures IsDecimal(raw.author.timestamp) && IsDecimal(raw.committer.timestamp)
  {
    RawCommit(
      c.tree,
      c.parent,
      Signature(c.author, DecimalString(c.authoredAt / 1000), authorTimezone),
      Signature(c.committer, DecimalString(c.committedAt / 1000), committerTimezone),
      c.message)
  }

  /** Decoding the tuple of a commit gives the commit back, whatever the timezones were. */
  lemma CommitRoundTrip(c: Commit, authorTimezone: string, committerTimezone: string)
    requires HasWholeSeconds(c)
    ensures GetCommit(c.hash, EncodeCommit(c, authorTimezone, committerTimezone)) == c
  {
    ParseDecimalString(c.authoredAt / 1000);
    ParseDecimalString(c.committedAt / 1000);
  }

  /**
   * Conversely, a tuple whose timestamps have no leading zero is recovered from its
   * decoded commit once the two discarded timezones are supplied again: for such
   * timestamps the timezones are the only information `getCommit` loses (leading
   * zeros, as in `"0042"`, are lost as well).
   */
  lemma TupleRoundTrip(key: string, raw: RawCommit)
    requires IsDecimal(raw.author.timestamp) && IsCanonical(raw.author.timestamp)
    requires IsDecimal(raw.committer.timestamp) && IsCanonical(raw.committer.timestamp)
    ensures HasWholeSeconds(GetCommit(key, raw))
    ensures EncodeCommit(GetCommit(key, raw), raw.author.timezone, raw.committer.timezone) == raw
  {
    DecimalStringOfParse(raw.author.timestamp);
    DecimalStringOfParse(raw.committer.timestamp);
  }

  // ---------------------------------------------------------------------------
  // getTree / decodeTreeEntry
  // ---------------------------------------------------------------------------

  /** The file mode of a directory. */
  const DirMode: string := "40000"

  /** The third element of a raw entry: a hash string or a nested entry array. */
  datatype Payload = Hash(hash: string) | Sub(entries: seq<RawEntry>)

  /** One raw entry `[mode, name, hash | subarray]`. */
  datatype RawEntry = RawEntry(mode: string, name: string, payload: Payload)

  /**
   * A decoded tree element: `Leaf` is a `LookupFile` (a file, a submodule or an
   * unexplored tree) and `Tree` is a `LookupTree`, whose `entries` may be undefined.
   */
  datatype Node =
    | Leaf(mode: string, hash: string, name: string)
    | Tree(mode: string, hash: string, name: string, entries: EntryList)

  /** The `entries` field of a `LookupTree`: `undefined` or an array of nodes. */
  datatype EntryList = Undefined | Entries(items: seq<Node>)

  /** A non-directory mode with a hash string. */
  predicate IsLeafEntry(e: RawEntry) {
    e.mode != DirMode && e.payload.Hash?
  }

  /** The directory mode with a nested array. */
  predicate IsSubtreeEntry(e: RawEntry) {
    e.mode == DirMode && e.payload.Sub?
  }

  /** One of the two shapes the decoder accepts; every other entry is dropped. */
  predicate WellShaped(e: RawEntry) {
    IsLeafEntry(e) || IsSubtreeEntry(e)
  }

  /**
   * What the decoder pushes for a raw list, as a specification: entries are taken
   * in order, a leaf becomes a `Leaf`, a subtree becomes a `Tree` decoded with the
   * ENCLOSING call's `hash`, anything else adds nothing.
   */
  function DecodedEntries(hash: string, raw: seq<RawEntry>): (nodes: seq<Node>)
    decreases raw
  {
    if raw == [] then []
    else DecodedEntries(hash, raw[..|raw| - 1]) + DecodedEntry(hash, raw[|raw| - 1])
  }

  function DecodedEntry(hash: string, e: RawEntry): (nodes: seq<Node>)
    decreases e
  {
    if IsLeafEntry(e) then [Leaf(e.mode, e.payload.hash, e.name)]
    else if IsSubtreeEntry(e) then [Tree(DirMode, hash, e.name, Entries(DecodedEntries(hash, e.payload.entries)))]
    else []
  }

  /** The tree `decodeTreeEntry(name, hash, raw)` returns. */
  function DecodedTree(name: string, hash: string, raw: seq<RawEntry>): (tree: Node) {
    Tree(DirMode, hash, name, Entries(DecodedEntries(hash, raw)))
  }

  /**
   * `decodeTreeEntry`: a loop over the raw entries that pushes onto the tree's
   * entry list and recurses into nested arrays. The nested call receives the
   * outer `hash`, not a hash of its own. A mismatched entry only triggers a
   * logging assertion, which does not stop the loop; it pushes nothing.
   */
  method DecodeTreeEntry(name: string, hash: string, raw: seq<RawEntry>) returns (tree: Node)
    ensures tree == DecodedTree(name, hash, raw)
    decreases raw
  {
    var entries: seq<Node> := [];
    var i := 0;
    while i < |raw|
      invariant 0 <= i <= |raw|
      invariant entries == DecodedEntries(hash, raw[..i])
    {
      var e := raw[i];
      assert raw[..i + 1][..i] == raw[..i];
      if e.mode != DirMode && e.payload.Hash? {
        entries := entries + [Leaf(e.mode, e.payload.hash, e.name)];
      } else if e.mode == DirMode && e.payload.Sub? {
        assert e in raw;
        var subtree := DecodeTreeEntry(e.name, hash, e.payload.entries);
        entries := entries + [subtree];
      }
      i := i + 1;
    }
    assert raw[..i] == raw;
    tree := Tree(DirMode, hash, name, Entries(entries));
  }

  /**
   * The shape of every decoded node: leaves have a non-directory mode; trees have
   * the directory mode, the root key as hash and a defined entry list.
   */
  predicate WellFormed(n: Node, key: string)
    decreases n
  {
    match n
    case Leaf(mode, _, _) => mode != DirMode
    case Tree(mode, hash, _, entries) =>
      mode == DirMode && hash == key && entries.Entries? &&
      forall i :: 0 <= i < |entries.items| ==> WellFormed(entries.items[i], key)
  }

  /**
   * Every node the decoder builds is well formed; in particular every nested tree
   * carries the root key as its hash.
   */
  lemma {:induction false} DecodedEntriesWellFormed(key: string, raw: seq<RawEntry>)
    ensures forall i :: 0 <= i < |DecodedEntries(key, raw)| ==> WellFormed(DecodedEntries(key, raw)[i], key)
    decreases raw
  {
    if raw != [] {
      var e := raw[|raw| - 1];
      DecodedEntriesWellFormed(key, raw[..|raw| - 1]);
      if IsSubtreeEntry(e) {
        DecodedEntriesWellFormed(key, e.payload.entries);
      }
      var prior, added := DecodedEntries(key, raw[..|raw| - 1]), DecodedEntry(key, e);
      if IsSubtreeEntry(e) {
        var items := DecodedEntries(key, e.payload.entries);
        assert added == [Tree(DirMode, key, e.name, Entries(items))];
        assert WellFormed(added[0], key);
      }
      assert DecodedEntries(key, raw) == prior + added;
    }
  }

  /** `getTree(key)`: the root is a directory named `''` with the requested key as hash. */
  method GetTree(key: string, response: seq<RawEntry>) returns (tree: Node)
    ensures tree == DecodedTree("", key, response)
    ensures tree.Tree? && tree.mode == DirMode && tree.name == "" && tree.hash == key
    ensures tree.entries.Entries?
    ensures WellFormed(tree, key)
  {
    tree := DecodeTreeEntry("", key, response);
    DecodedEntriesWellFormed(key, response);
  }

  /** Decoding distributes over concatenation: the entries keep their order. */
  lemma {:induction false} DecodedEntriesAppend(hash: string, a: seq<RawEntry>, b: seq<RawEntry>)
    ensures DecodedEntries(hash, a + b) == DecodedEntries(hash, a) + DecodedEntries(hash, b)
    decreases |b|
  {
    if b == [] {
      assert a + b == a;
    } else {
      var init := b[..|b| - 1];
      assert (a + b)[..|a + b| - 1] == a + init;
      assert (a + b)[|a + b| - 1] == b[|b| - 1];
      DecodedEntriesAppend(hash, a, init);
    }
  }

  /**
   * The raw entries the decoder keeps, in order: every well-shaped entry, as often
   * as it occurs, and nothing else.
   */
  function WellShapedOnly(raw: seq<RawEntry>): (kept: seq<RawEntry>)
    ensures |kept| <= |raw|
    ensures forall i :: 0 <= i < |kept| ==> WellShaped(kept[i]) && kept[i] in raw
    ensures forall e :: e in kept <==> e in raw && WellShaped(e)
    ensures forall e :: multiset(kept)[e] == if WellShaped(e) then multiset(raw)[e] else 0
  {
    if raw == [] then []
    else
      var init := WellShapedOnly(raw[..|raw| - 1]);
      var last := raw[|raw| - 1];
      assert raw == raw[..|raw| - 1] + [last];
      if WellShaped(last) then init + [last] else init
  }

  /** The filter distributes over concatenation, so the kept entries stay in raw order. */
  lemma {:induction false} WellShapedOnlyAppend(a: seq<RawEntry>, b: seq<RawEntry>)
    ensures WellShapedOnly(a + b) == WellShapedOnly(a) + WellShapedOnly(b)
    decreases |b|
  {
    if b == [] {
      assert a + b == a;
    } else {
      var init := b[..|b| - 1];
      assert (a + b)[..|a + b| - 1] == a + init;
      assert (a + b)[|a + b| - 1] == b[|b| - 1];
      WellShapedOnlyAppend(a, init);
    }
  }

  /** The node one well-shaped raw entry becomes. */
  function Converted(hash: string, e: RawEntry): (n: Node)
    requires WellShaped(e)
  {
    if IsLeafEntry(e) then Leaf(e.mode, e.payload.hash, e.name)
    else Tree(DirMode, hash, e.name, Entries(DecodedEntries(hash, e.payload.entries)))
  }

  /**
   * The decoded list is a filter followed by a map: its i-th node is the
   * conversion of the i-th well-shaped raw entry, and there are no others.
   */
  lemma {:induction false} DecodedIsFilterMap(hash: string, raw: seq<RawEntry>)
    ensures |DecodedEntries(hash, raw)| == |WellShapedOnly(raw)|
    ensures forall i :: 0 <= i < |WellShapedOnly(raw)| ==>
      DecodedEntries(hash, raw)[i] == Converted(hash, WellShapedOnly(raw)[i])
  {
    if raw != [] {
      DecodedIsFilterMap(hash, raw[..|raw| - 1]);
    }
  }

  /** Nothing is dropped exactly when every raw entry has one of the two shapes. */
  lemma {:induction false} NothingDroppedIffWellShaped(hash: string, raw: seq<RawEntry>)
    ensures |DecodedEntries(hash, raw)| <= |raw|
    ensures |DecodedEntries(hash, raw)| == |raw| <==> forall i :: 0 <= i < |raw| ==> WellShaped(raw[i])
  {
    if raw != [] {
      var init := raw[..|raw| - 1];
      NothingDroppedIffWellShaped(hash, init);
      if forall i :: 0 <= i < |raw| ==> WellShaped(raw[i]) {
        assert forall i :: 0 <= i < |init| ==> WellShaped(init[i]) by {
          forall i | 0 <= i < |init| ensures WellShaped(init[i]) {
            assert init[i] == raw[i];
          }
        }
      }
    }
  }

  /** The raw entries the lookup service would send for decoded nodes. */
  function EncodedEntries(nodes: seq<Node>): (raw: seq<RawEntry>)
    ensures |raw| == |nodes|
    decreases nodes
  {
    if nodes == [] then []
    else EncodedEntries(nodes[..|nodes| - 1]) + [EncodedNode(nodes[|nodes| - 1])]
  }

  function EncodedNode(n: Node): (e: RawEntry)
    decreases n
  {
    match n
    case Leaf(mode, hash, name) => RawEntry(mode, name, Hash(hash))
    case Tree(mode, hash, name, Undefined) => RawEntry(mode, name, Hash(hash))
    case Tree(mode, _, name, Entries(items)) => RawEntry(mode, name, Sub(EncodedEntries(items)))
  }

  /** Decoding the encoding of well-formed nodes gives them back. */
  lemma {:induction false} DecodeEncode(key: string, nodes: seq<Node>)
    requires forall i :: 0 <= i < |nodes| ==> WellFormed(nodes[i], key)
    ensures DecodedEntries(key, EncodedEntries(nodes)) == nodes
    decreases nodes
  {
    if nodes != [] {
      var init := nodes[..|nodes| - 1];
      var last := nodes[|nodes| - 1];
      var raw := EncodedEntries(nodes);
      assert raw[..|raw| - 1] == EncodedEntries(init);
      DecodeEncode(key, init);
      if last.Tree? {
        DecodeEncode(key, last.entries.items);
      }
      assert nodes == init + [last];
    }
  }

  /**
   * Decoding is stable: the decoded tree, sent again in the raw format, decodes
   * to the same nodes (same modes, names, hashes and nesting).
   */
  lemma DecodeIdempotent(key: string, raw: seq<RawEntry>)
    ensures DecodedEntries(key, EncodedEntries(DecodedEntries(key, raw))) == DecodedEntries(key, raw)
  {
    DecodedEntriesWellFormed(key, raw);
    DecodeEncode(key, DecodedEntries(key, raw));
  }

  /**
   * An unexplored directory, sent as `['40000', name, hash]`, is dropped by the
   * decoder as written, although the leaf branch is documented as handling "an
   * unexplored tree": its guard `mode != '40000'` excludes exactly that entry.
   */
  lemma UnexploredTreeIsDropped(key: string, name: string, hash: string)
    ensures DecodedTree("", key, [RawEntry(DirMode, name, Hash(hash))]).entries == Entries([])
  {
    var raw := [RawEntry(DirMode, name, Hash(hash))];
    assert raw[..|raw| - 1] == [] && raw[|raw| - 1] == raw[0];
    assert DecodedEntries(key, raw) == DecodedEntries(key, []) + DecodedEntry(key, raw[0]);
  }

  /**
   * The decoder as its comments describe it: every entry with a hash string is a
   * leaf (a file, a submodule or an unexplored tree), a directory with a nested
   * array is a subtree, and only a non-directory with a nested array is dropped.
   */
  function IntendedEntries(hash: string, raw: seq<RawEntry>): (nodes: seq<Node>)
    decreases raw
  {
    if raw == [] then []
    else IntendedEntries(hash, raw[..|raw| - 1]) + IntendedEntry(hash, raw[|raw| - 1])
  }

  function IntendedEntry(hash: string, e: RawEntry): (nodes: seq<Node>)
    decreases e
  {
    match e.payload
    case Hash(h) => [Leaf(e.mode, h, e.name)]
    case Sub(entries) =>
      if e.mode == DirMode then [Tree(DirMode, hash, e.name, Entries(IntendedEntries(hash, entries)))]
      else []
  }

  /** A raw entry the intended decoder keeps: any hash string, or a directory's array. */
  predicate Decodable(e: RawEntry) {
    e.payload.Hash? || e.mode == DirMode
  }

  /**
   * With the intended guard nothing the service can send for a git tree is lost:
   * the decoded list is as long as the raw one exactly when every entry is a hash
   * string or a directory's array, and an unexplored directory becomes a leaf.
   */
  lemma {:induction false} IntendedKeepsUnexploredTrees(hash: string, raw: seq<RawEntry>)
    ensures |IntendedEntries(hash, raw)| <= |raw|
    ensures |IntendedEntries(hash, raw)| == |raw| <==> forall i :: 0 <= i < |raw| ==> Decodable(raw[i])
    ensures forall name, h :: IntendedEntries(hash, [RawEntry(DirMode, name, Hash(h))]) == [Leaf(DirMode, h, name)]
  {
    if raw != [] {
      var init := raw[..|raw| - 1];
      IntendedKeepsUnexploredTrees(hash, init);
      if forall i :: 0 <= i < |raw| ==> Decodable(raw[i]) {
        assert forall i :: 0 <= i < |init| ==> Decodable(init[i]) by {
          forall i | 0 <= i < |init| ensures Decodable(init[i]) {
            assert init[i] == raw[i];
          }
        }
      }
    }
    forall name, h ensures IntendedEntries(hash, [RawEntry(DirMode, name, Hash(h))]) == [Leaf(DirMode, h, name)] {
      assert [RawEntry(DirMode, name, Hash(h))][..0] == [];
    }
  }

  // ---------------------------------------------------------------------------
  // getMapNames
  // ---------------------------------------------------------------------------

  /** One record `{name}` of the map listing. */
  datatype MapRecord = MapRecord(name: string)

  /** The position of the first occurrence of `x` in `s`. */
  function FirstIndex<T(==)>(s: seq<T>, x: T): (k: nat)
    requires x in s
    ensures k < |s| && s[k] == x
    ensures forall j :: 0 <= j < k ==> s[j] != x
  {
    if s[0] == x then 0 else 1 + FirstIndex(s[1..], x)
  }

  lemma FirstIndexInPrefix<T>(s: seq<T>, n: nat, x: T)
    requires n <= |s| && x in s[..n]
    ensures x in s && FirstIndex(s, x) == FirstIndex(s[..n], x)
  {
    var k := FirstIndex(s[..n], x);
    assert s[k] == s[..n][k] == x;
    var k' := FirstIndex(s, x);
    assert s[..n][k'] == x;
  }

  /**
   * `Array.from(new Set(s))`: the distinct elements of `s`, in the order of their
   * first occurrence.
   */
  function DistinctInOrder(s: seq<string>): (r: seq<string>)
    ensures forall x :: x in r <==> x in s
    ensures forall i, j :: 0 <= i < j < |r| ==> r[i] != r[j]
    ensures forall i, j :: 0 <= i < j < |r| ==> FirstIndex(s, r[i]) < FirstIndex(s, r[j])
  {
    if s == [] then []
    else
      var init := s[..|s| - 1];
      var prior := DistinctInOrder(init);
      var last := s[|s| - 1];
      assert forall i :: 0 <= i < |prior| ==> prior[i] in s && FirstIndex(s, prior[i]) == FirstIndex(init, prior[i]) by {
        forall i | 0 <= i < |prior| ensures prior[i] in s && FirstIndex(s, prior[i]) == FirstIndex(init, prior[i]) {
          assert prior[i] in prior;
          FirstIndexInPrefix(s, |s| - 1, prior[i]);
        }
      }
      if last in prior then prior else prior + [last]
  }

  /** `resp.map((m) => m.name)`: the names of the listing, one per record, in order. */
  function Names(response: seq<MapRecord>): (all: seq<string>)
    ensures |all| == |response|
    ensures forall i :: 0 <= i < |response| ==> all[i] == response[i].name
  {
    seq(|response|, i requires 0 <= i < |response| => response[i].name)
  }

  /** `getMapNames()`: every name of the listing exactly once, in order of first occurrence. */
  function GetMapNames(response: seq<MapRecord>): (names: seq<string>)
    ensures forall n :: n in names <==> exists i :: 0 <= i < |response| && response[i].name == n
    ensures forall n :: n in names ==> multiset(names)[n] == 1
    ensures forall i, j :: 0 <= i < j < |names| ==>
      names[i] in Names(response) && names[j] in Names(response) &&
      FirstIndex(Names(response), names[i]) < FirstIndex(Names(response), names[j])
  {
    var all := Names(response);
    var names := DistinctInOrder(all);
    assert forall n :: n in all <==> exists i :: 0 <= i < |response| && response[i].name == n by {
      forall n ensures n in all <==> exists i :: 0 <= i < |response| && response[i].name == n {
        if n in all {
          var i :| 0 <= i < |all| && all[i] == n;
          assert response[i].name == n;
        }
        if exists i :: 0 <= i < |response| && response[i].name == n {
          var i :| 0 <= i < |response| && response[i].name == n;
          assert all[i] == n;
        }
      }
    }
    assert forall n :: n in names ==> multiset(names)[n] == 1 by {
      forall n | n in names ensures multiset(names)[n] == 1 {
        DistinctCountsOnce(names, n);
      }
    }
    names
  }

  lemma {:induction false} DistinctCountsOnce<T>(s: seq<T>, x: T)
    requires forall i, j :: 0 <= i < j < |s| ==> s[i] != s[j]
    requires x in s
    ensures multiset(s)[x] == 1
  {
    var init := s[..|s| - 1];
    assert s == init + [s[|s| - 1]];
    if x == s[|s| - 1] {
      assert x !in init;
    } else {
      DistinctCountsOnce(init, x);
    }
  }
}
