/** Index files as the format lays them out, and the parser's way back: when an entry is read at all, and
    that a file built from any entries is read as exactly these. */
module GitIndexFormat {
  import opened Wrappers
  import opened Bytes
  import opened GitIndex

  // ---- When an entry is read ----

  /** The bytes at `start` are those of `e`: the fixed part, a nonempty path up to its first zero byte, and
      one to eight bytes of padding up to the next multiple of eight, all of it before `end`. */
  predicate LiesAt(data: bytes, version: nat, start: nat, end: nat, e: Entry)
    requires end <= |data|
  {
    && e.start == start && start + FIXED <= end && e.path == PathStart(data, version, start)
    && e.path < e.nul < e.next <= end && data[e.nul] == 0 && 0 !in data[e.path..e.nul]
    && e.next <= e.nul + 8 && (e.next - start) % 8 == 0
  }

  lemma PaddedOnce(start: nat, nul: nat, next: nat)
    requires start <= nul < next <= nul + 8 && (next - start) % 8 == 0
    ensures Padded(start, nul) == next
  {
    var a, b := (Padded(start, nul) - start) / 8, (next - start) / 8;
    assert Padded(start, nul) - start == 8 * a && next - start == 8 * b;
  }

  lemma {:induction false} FindFirst(data: bytes, wanted: byte, from: nat, at: nat, end: nat)
    requires from <= at < end <= |data| && data[at] == wanted && wanted !in data[from..at]
    ensures Bytes.Find(data, wanted, from, end) == at
    decreases at - from
  {
    if from < at {
      assert data[from..at][0] == data[from] && data[from..at][1..] == data[from + 1..at];
      FindFirst(data, wanted, from + 1, at, end);
    }
  }

  /** An entry is read exactly where one lies, and it is refused exactly where none does. */
  lemma EntryAtMeans(data: bytes, version: nat, start: nat, end: nat, e: Entry)
    requires end <= |data|
    ensures EntryAt(data, version, start, end) == Some(e) <==> LiesAt(data, version, start, end, e)
  {
    if LiesAt(data, version, start, end, e) {
      FindFirst(data, 0, e.path, e.nul, end);
      PaddedOnce(start, e.nul, e.next);
    }
  }

  // ---- Files built from entries ----

  /** One entry: sixty bytes of stat data and object name, the flags, the extended flags, and the path. */
  datatype Item = Item(stat: bytes, flags: nat, extra: bytes, path: bytes)

  predicate Encodable(i: Item) {
    |i.stat| == 60 && i.flags < 0x1_0000 && |i.extra| == 2 && i.path != [] && 0 !in i.path
  }

  predicate AllEncodable(items: seq<Item>) { forall i <- items :: Encodable(i) }

  function Pack16(v: nat): (r: bytes)
    requires v < 0x1_0000
    ensures |r| == 2
  {
    [v / 0x100, v % 0x100]
  }

  function Pack32(v: nat): (r: bytes)
    requires v < WORD
    ensures |r| == 4
  {
    [PackedByte(v, 0), PackedByte(v, 1), PackedByte(v, 2), PackedByte(v, 3)]
  }

  function Zeros(n: nat): (r: bytes)
    ensures |r| == n && forall k :: 0 <= k < n ==> r[k] == 0
  {
    seq(n, _ => 0)
  }

  /** The part before the path; extended flags exist from version 3 on. */
  function Front(version: nat, i: Item): (r: bytes)
    requires Encodable(i)
    ensures |r| == FIXED + if version >= 3 && Extended(i.flags) then 2 else 0
  {
    i.stat + Pack16(i.flags) + if version >= 3 && Extended(i.flags) then i.extra else []
  }

  function EncodeItem(version: nat, i: Item): bytes
    requires Encodable(i)
  {
    var bare := Front(version, i) + i.path;
    bare + Zeros(8 - |bare| % 8)
  }

  function EncodeItems(version: nat, items: seq<Item>): bytes
    requires AllEncodable(items)
  {
    if items == [] then [] else EncodeItem(version, items[0]) + EncodeItems(version, items[1..])
  }

  /** An extension: its signature and its contents. */
  datatype Extension = Extension(name: bytes, body: bytes)

  predicate AllFit(extensions: seq<Extension>) { forall x <- extensions :: |x.name| == 4 && |x.body| < WORD }

  function EncodeExtensions(extensions: seq<Extension>): bytes
    requires AllFit(extensions)
  {
    if extensions == [] then []
    else
      var x := extensions[0];
      (x.name + Pack32(|x.body|) + x.body) + EncodeExtensions(extensions[1..])
  }

  predicate LinkFree(extensions: seq<Extension>) { forall x <- extensions :: x.name != LINK }

  function EncodeHeader(version: nat, count: nat): (r: bytes)
    requires version < WORD && count < WORD
    ensures |r| == HEADER
  {
    SIGNATURE + Pack32(version) + Pack32(count)
  }

  function EncodeIndex(sha1: Hash, version: nat, items: seq<Item>, extensions: seq<Extension>): bytes
    requires version < WORD && |items| < WORD && AllEncodable(items) && AllFit(extensions)
  {
    var body := EncodeHeader(version, |items|) + (EncodeItems(version, items) + EncodeExtensions(extensions));
    body + sha1(body)
  }

  // ---- The way back ----

  predicate PartAt(data: bytes, start: nat, part: bytes) {
    start + |part| <= |data| && forall k :: 0 <= k < |part| ==> part[k] == data[start + k]
  }

  lemma PartOfPart(data: bytes, start: nat, a: bytes, b: bytes)
    requires PartAt(data, start, a + b)
    ensures PartAt(data, start, a) && PartAt(data, start + |a|, b)
  {
    forall k | 0 <= k < |a|
      ensures a[k] == data[start + k]
    {
      assert (a + b)[k] == a[k];
    }
    forall k | 0 <= k < |b|
      ensures b[k] == data[start + |a| + k]
    {
      assert (a + b)[|a| + k] == b[k];
    }
  }

  lemma FlagsRead(data: bytes, start: nat, version: nat, i: Item)
    requires Encodable(i) && PartAt(data, start, Front(version, i))
    ensures PathStart(data, version, start) == start + |Front(version, i)|
  {
    var front := Front(version, i);
    assert data[start + 60] == front[60] && data[start + 61] == front[61];
    assert front[60] == i.flags / 0x100 && front[61] == i.flags % 0x100;
    assert U16(data, start + 60) == i.flags;
  }

  /** One encoded entry is read as itself. */
  lemma ItemRead(data: bytes, version: nat, start: nat, end: nat, i: Item) returns (e: Entry)
    requires Encodable(i) && PartAt(data, start, EncodeItem(version, i))
          && start + |EncodeItem(version, i)| <= end <= |data|
    ensures EntryAt(data, version, start, end) == Some(e)
    ensures e.next == start + |EncodeItem(version, i)| && PathOf(data, e) == Slashed(i.path)
  {
    var front := Front(version, i);
    var bare := front + i.path;
    var pad := Zeros(8 - |bare| % 8);
    PartOfPart(data, start, bare, pad);
    PartOfPart(data, start, front, i.path);
    FlagsRead(data, start, version, i);
    e := Entry(start, start + |front|, start + |bare|, start + |bare| + |pad|);
    assert data[e.nul] == pad[0];
    assert data[e.path..e.nul] == i.path;
    EntryAtMeans(data, version, start, end, e);
  }

  function PathsOf(items: seq<Item>): set<bytes> { set i | i in items :: Slashed(i.path) }

  lemma PathsOfCons(items: seq<Item>)
    requires items != []
    ensures PathsOf(items) == {Slashed(items[0].path)} + PathsOf(items[1..])
  {
    assert forall i :: i in items <==> i == items[0] || i in items[1..];
  }

  lemma ChainGoesOn(data: bytes, read: Reader, start: nat, count: nat, e: Entry, rest: Layout)
    requires read(start) == Some(e) && EntriesFrom(read, e.next, count) == Some(rest)
    ensures EntriesFrom(read, start, count + 1) == Some(Layout([e] + rest.entries, rest.stop))
    ensures Paths(data, [e] + rest.entries) == {PathOf(data, e)} + Paths(data, rest.entries)
  {
    PathsCons(data, e, rest.entries);
  }

  lemma FirstItem(data: bytes, version: nat, start: nat, items: seq<Item>)
    requires items != [] && AllEncodable(items) && PartAt(data, start, EncodeItems(version, items))
    ensures Encodable(items[0]) && AllEncodable(items[1..])
    ensures var size := |EncodeItem(version, items[0])|;
            && |EncodeItems(version, items)| == size + |EncodeItems(version, items[1..])|
            && PartAt(data, start, EncodeItem(version, items[0]))
            && PartAt(data, start + size, EncodeItems(version, items[1..]))
  {
    PartOfPart(data, start, EncodeItem(version, items[0]), EncodeItems(version, items[1..]));
  }

  /** Encoded entries are read one after the other. */
  lemma {:induction false} ItemsRead(data: bytes, version: nat, read: Reader, start: nat, items: seq<Item>)
    returns (l: Layout)
    requires AllEncodable(items) && |data| >= TRAILER && read == ReaderOf(data, version)
    requires PartAt(data, start, EncodeItems(version, items))
          && start + |EncodeItems(version, items)| <= |data| - TRAILER
    ensures EntriesFrom(read, start, |items|) == Some(l)
    ensures l.stop == start + |EncodeItems(version, items)| && Paths(data, l.entries) == PathsOf(items)
    decreases items
  {
    if items == [] {
      l := Layout([], start);
    } else {
      FirstItem(data, version, start, items);
      var e := ItemRead(data, version, start, |data| - TRAILER, items[0]);
      var rest := ItemsRead(data, version, read, e.next, items[1..]);
      ChainGoesOn(data, read, start, |items[1..]|, e, rest);
      PathsOfCons(items);
      l := Layout([e] + rest.entries, rest.stop);
    }
  }

  lemma FirstExtension(data: bytes, start: nat, extensions: seq<Extension>)
    requires extensions != [] && AllFit(extensions) && PartAt(data, start, EncodeExtensions(extensions))
    ensures AllFit(extensions[1..]) && |extensions[0].name| == 4 && |extensions[0].body| < WORD
    ensures var x := extensions[0];
            && |EncodeExtensions(extensions)| == 8 + |x.body| + |EncodeExtensions(extensions[1..])|
            && PartAt(data, start, x.name) && PartAt(data, start + 4, Pack32(|x.body|))
            && PartAt(data, start + 8 + |x.body|, EncodeExtensions(extensions[1..]))
  {
    var x := extensions[0];
    PartOfPart(data, start, x.name + Pack32(|x.body|) + x.body, EncodeExtensions(extensions[1..]));
    PartOfPart(data, start, x.name + Pack32(|x.body|), x.body);
    PartOfPart(data, start, x.name, Pack32(|x.body|));
  }

  lemma PackedReads(data: bytes, at: nat, v: nat)
    requires v < WORD && PartAt(data, at, Pack32(v))
    ensures U32(data, at) == v
  {
    var four := Pack32(v);
    assert four[0] == data[at] && four[1] == data[at + 1] && four[2] == data[at + 2] && four[3] == data[at + 3];
    HoldsReads(data, at, v);
  }

  lemma LinkFreeCons(extensions: seq<Extension>)
    requires extensions != []
    ensures LinkFree(extensions) <==> extensions[0].name != LINK && LinkFree(extensions[1..])
  {
    assert extensions == [extensions[0]] + extensions[1..];
  }

  lemma PlainStep(data: bytes, start: nat, end: nat, name: bytes, size: nat)
    requires start + 8 + size <= end <= |data| && size < WORD
    requires |name| == 4 && PartAt(data, start, name) && U32(data, start + 4) == size
    ensures PlainExtensions(data, start, end) <==> name != LINK && PlainExtensions(data, start + 8 + size, end)
  {
    assert data[start..start + 4] == name;
  }

  /** Complete extensions are plain unless one of them is a link. */
  lemma {:induction false} ExtensionsRead(data: bytes, start: nat, end: nat, extensions: seq<Extension>)
    requires AllFit(extensions) && PartAt(data, start, EncodeExtensions(extensions))
    requires end == start + |EncodeExtensions(extensions)|
    ensures PlainExtensions(data, start, end) <==> LinkFree(extensions)
    decreases extensions
  {
    if extensions != [] {
      var x := extensions[0];
      FirstExtension(data, start, extensions);
      PackedReads(data, start + 4, |x.body|);
      PlainStep(data, start, end, x.name, |x.body|);
      ExtensionsRead(data, start + 8 + |x.body|, end, extensions[1..]);
      LinkFreeCons(extensions);
    }
  }

  lemma HeaderRead(sha1: Hash, version: nat, count: nat, rest: bytes)
    requires (version == 2 || version == 3) && count < WORD
    ensures var body := EncodeHeader(version, count) + rest;
            HeaderOf(sha1, body + sha1(body)) == Some(Header(version, count))
  {
    var header, body := EncodeHeader(version, count), EncodeHeader(version, count) + rest;
    var data := body + sha1(body);
    assert forall k :: 0 <= k < HEADER ==> data[k] == header[k];
    assert data[..4] == SIGNATURE && data[..|data| - TRAILER] == body && data[|data| - TRAILER..] == sha1(body);
    assert Holds(data, 4, version) && Holds(data, 8, count);
    HoldsReads(data, 4, version);
    HoldsReads(data, 8, count);
  }

  lemma TrackedIs(sha1: Hash, data: bytes, h: Header, l: Layout, paths: set<bytes>, plain: bool)
    requires HeaderOf(sha1, data) == Some(h) && EntriesFrom(ReaderOf(data, h.version), HEADER, h.count) == Some(l)
    requires Paths(data, l.entries) == paths && PlainExtensions(data, l.stop, |data| - TRAILER) == plain
    ensures Tracked(sha1, data) == if plain then Some(paths) else None
  {
  }

  lemma PartAtSelf(part: bytes, more: bytes)
    ensures PartAt(part + more, 0, part)
  {
  }

  lemma PartsLie(header: bytes, encoded: bytes, extensions: bytes, trailer: bytes)
    ensures var data := (header + (encoded + extensions)) + trailer;
            PartAt(data, |header|, encoded) && PartAt(data, |header| + |encoded|, extensions)
  {
    var rest := encoded + extensions;
    PartAtSelf(header + rest, trailer);
    PartOfPart((header + rest) + trailer, 0, header, rest);
    PartOfPart((header + rest) + trailer, |header|, encoded, extensions);
  }

  /** The parts of an encoded file. */
  lemma EncodedParts(sha1: Hash, version: nat, items: seq<Item>, extensions: seq<Extension>)
    requires (version == 2 || version == 3) && |items| < WORD && AllEncodable(items) && AllFit(extensions)
    ensures var data := EncodeIndex(sha1, version, items, extensions);
            HeaderOf(sha1, data) == Some(Header(version, |items|)) && Payload(data, version, items, extensions)
  {
    var header := EncodeHeader(version, |items|);
    var encoded, behind := EncodeItems(version, items), EncodeExtensions(extensions);
    HeaderRead(sha1, version, |items|, encoded + behind);
    PartsLie(header, encoded, behind, sha1(header + (encoded + behind)));
  }

  /** What lies between the header and the checksum. */
  predicate Payload(data: bytes, version: nat, items: seq<Item>, extensions: seq<Extension>)
    requires AllEncodable(items) && AllFit(extensions)
  {
    && |data| == HEADER + |EncodeItems(version, items)| + |EncodeExtensions(extensions)| + TRAILER
    && PartAt(data, HEADER, EncodeItems(version, items))
    && PartAt(data, HEADER + |EncodeItems(version, items)|, EncodeExtensions(extensions))
  }

  lemma EntriesRead(data: bytes, version: nat, items: seq<Item>, extensions: seq<Extension>) returns (l: Layout)
    requires AllEncodable(items) && AllFit(extensions) && Payload(data, version, items, extensions)
    ensures EntriesFrom(ReaderOf(data, version), HEADER, |items|) == Some(l)
    ensures l.stop == HEADER + |EncodeItems(version, items)| && Paths(data, l.entries) == PathsOf(items)
  {
    l := ItemsRead(data, version, ReaderOf(data, version), HEADER, items);
  }

  lemma RestRead(data: bytes, version: nat, items: seq<Item>, extensions: seq<Extension>, stop: nat)
    requires AllEncodable(items) && AllFit(extensions) && Payload(data, version, items, extensions)
    requires stop == HEADER + |EncodeItems(version, items)|
    ensures stop <= |data| - TRAILER && PlainExtensions(data, stop, |data| - TRAILER) == LinkFree(extensions)
  {
    ExtensionsRead(data, stop, |data| - TRAILER, extensions);
  }

  /** Round trip: an index file of any entries and extensions is understood, and tracks exactly the paths of
      these entries, unless one of the extensions is a split-index link. */
  lemma ParsesWhatIsEncoded(sha1: Hash, version: nat, items: seq<Item>, extensions: seq<Extension>)
    requires (version == 2 || version == 3) && |items| < WORD && AllEncodable(items) && AllFit(extensions)
    ensures Tracked(sha1, EncodeIndex(sha1, version, items, extensions))
         == if LinkFree(extensions) then Some(PathsOf(items)) else None
  {
    var data := EncodeIndex(sha1, version, items, extensions);
    EncodedParts(sha1, version, items, extensions);
    var l := EntriesRead(data, version, items, extensions);
    RestRead(data, version, items, extensions, l.stop);
    TrackedIs(sha1, data, Header(version, |items|), l, PathsOf(items), LinkFree(extensions));
  }
}
