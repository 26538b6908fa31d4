/** The Git index as `git_broker_sandbox.py` reads it: its layout and the tracked-path parser. */
module GitIndex {
  import opened Bytes
  import opened Wrappers

  const HEADER := 12
  const TRAILER := 20
  const FIXED := 62           // bytes of an entry up to the end of its flag word

  type digest = d: bytes | |d| == TRAILER witness seq(TRAILER, _ => 0)
  /** SHA-1, of which only the length of the digest is used. */
  type Hash = bytes -> digest

  /** The bits `0x3000`, `0x4000` and `~0x6000` of a flag word. */
  predicate Staged(flags: nat) { flags / 0x1000 % 4 != 0 }
  predicate Extended(flags: nat) { flags / 0x4000 % 2 == 1 }
  predicate Unsupported(extendedFlags: nat) { extendedFlags % 0x2000 != 0 || extendedFlags / 0x8000 != 0 }

  const SIGNATURE: bytes := [0x44, 0x49, 0x52, 0x43]   // "DIRC"
  const LINK: bytes := [0x6C, 0x69, 0x6E, 0x6B]        // "link"

  /** Version and entry count. */
  datatype Header = Header(version: nat, count: nat)

  /** Where one entry lies: it starts at `start`, its path is `data[path..nul]`, and the next entry
      (after padding to a multiple of eight bytes) starts at `next`. */
  datatype Entry = Entry(start: nat, path: nat, nul: nat, next: nat)

  datatype Layout = Layout(entries: seq<Entry>, stop: nat)

  /** The trailer is the checksum of everything before it, and the file begins with `DIRC`. */
  predicate Sealed(sha1: Hash, data: bytes) {
    |data| >= 32 && data[..4] == SIGNATURE && sha1(data[..|data| - TRAILER]) == data[|data| - TRAILER..]
  }

  /** What both readers demand before the first entry. */
  function HeaderOf(sha1: Hash, data: bytes): (r: Option<Header>)
    ensures r.Some? ==> Sealed(sha1, data) && (r.value.version == 2 || r.value.version == 3)
  {
    if !Sealed(sha1, data) || (U32(data, 4) != 2 && U32(data, 4) != 3) then None
    else Some(Header(U32(data, 4), U32(data, 8)))
  }

  function PathStart(data: bytes, version: nat, start: nat): nat
    requires start + FIXED <= |data|
  {
    start + FIXED + if version >= 3 && Extended(U16(data, start + 60)) then 2 else 0
  }

  function Padded(start: nat, nul: nat): (next: nat)
    requires start <= nul
    ensures nul < next <= nul + 8 && (next - start) % 8 == 0
  {
    start + (nul + 1 - start + 7) / 8 * 8
  }

  /** The entry at `start`, unless it is cut off, unterminated, has an empty path or runs over `end`. */
  function EntryAt(data: bytes, version: nat, start: nat, end: nat): (r: Option<Entry>)
    requires end <= |data|
    ensures r.Some? ==>
              && r.value.start == start && start + FIXED <= r.value.path < r.value.nul < r.value.next <= end
              && data[r.value.nul] == 0
  {
    if start + FIXED > end || PathStart(data, version, start) > end then None
    else
      var path := PathStart(data, version, start);
      var nul := Find(data, 0, path, end);
      if nul <= path || Padded(start, nul) > end then None
      else Some(Entry(start, path, nul, Padded(start, nul)))
  }

  /** How the entry at an offset is read. */
  type Reader = nat -> Option<Entry>

  /** The reader of a file whose checksum starts at `|data| - TRAILER`. */
  function ReaderOf(data: bytes, version: nat): Reader {
    (start: nat) => if |data| < TRAILER then None else EntryAt(data, version, start, |data| - TRAILER)
  }

  /** The layout of the `count` entries that begin at `start`. */
  function EntriesFrom(read: Reader, start: nat, count: nat): (r: Option<Layout>)
    decreases count
  {
    if count == 0 then Some(Layout([], start))
    else
      match read(start)
      case None => None
      case Some(e) =>
        match EntriesFrom(read, e.next, count - 1)
        case None => None
        case Some(rest) => Some(Layout([e] + rest.entries, rest.stop))
  }

  /** The extensions behind the entries are complete and none of them is a split-index link. */
  predicate PlainExtensions(data: bytes, start: nat, end: nat)
    requires end <= |data|
    decreases |data| - start
  {
    start == end
    || (&& start + 8 <= end
        && U32(data, start + 4) <= end - (start + 8)
        && data[start..start + 4] != LINK
        && PlainExtensions(data, start + 8 + U32(data, start + 4), end))
  }

  /** The entries of a whole index file, when it is one this program understands. */
  function LayoutOf(sha1: Hash, data: bytes): (r: Option<Layout>)
  {
    match HeaderOf(sha1, data)
    case None => None
    case Some(h) =>
      var r := EntriesFrom(ReaderOf(data, h.version), HEADER, h.count);
      if r.Some? && PlainExtensions(data, r.value.stop, |data| - TRAILER) then r else None
  }

  /** The entries lie one behind the other between `start` and `end`. */
  predicate Chained(entries: seq<Entry>, start: nat, end: nat) {
    && (forall e <- entries :: start <= e.start && e.start + FIXED <= e.path < e.nul < e.next <= end)
    && (forall i, j :: 0 <= i < j < |entries| ==> entries[i].next <= entries[j].start)
  }

  lemma {:induction false} EntriesChained(data: bytes, version: nat, start: nat, count: nat)
    requires |data| >= TRAILER
    requires EntriesFrom(ReaderOf(data, version), start, count).Some? && start <= |data| - TRAILER
    ensures var l := EntriesFrom(ReaderOf(data, version), start, count).value;
            |l.entries| == count && start <= l.stop <= |data| - TRAILER && Chained(l.entries, start, l.stop)
    decreases count
  {
    if count > 0 {
      var e := ReaderOf(data, version)(start).value;
      var rest := EntriesFrom(ReaderOf(data, version), e.next, count - 1).value;
      EntriesChained(data, version, e.next, count - 1);
      forall i, j | 0 <= i < j < count
        ensures ([e] + rest.entries)[i].next <= ([e] + rest.entries)[j].start
      {
        assert rest.entries[j - 1] in rest.entries;
      }
    }
  }

  lemma LayoutChained(sha1: Hash, data: bytes)
    requires LayoutOf(sha1, data).Some?
    ensures |data| >= 32 && Chained(LayoutOf(sha1, data).value.entries, HEADER, |data| - TRAILER)
  {
    var h := HeaderOf(sha1, data).value;
    EntriesChained(data, h.version, HEADER, h.count);
  }

  /** A path as the program compares it. Decoding with surrogate escapes loses nothing, so a path is
      its bytes, with every backslash turned into a slash. */
  function Slashed(raw: bytes): (r: bytes)
    ensures |r| == |raw|
  {
    seq(|raw|, i requires 0 <= i < |raw| => if raw[i] == 0x5C then 0x2F else raw[i])
  }

  /** The path of an entry of `data`. */
  function PathOf(data: bytes, e: Entry): bytes {
    if e.path <= e.nul <= |data| then Slashed(data[e.path..e.nul]) else []
  }

  function Paths(data: bytes, entries: seq<Entry>): set<bytes> {
    set e | e in entries :: PathOf(data, e)
  }

  /** The set `_parse_index_tracked_paths` returns. */
  function Tracked(sha1: Hash, data: bytes): Option<set<bytes>> {
    match LayoutOf(sha1, data)
    case None => None
    case Some(l) => Some(Paths(data, l.entries))
  }

  lemma PathsCons(data: bytes, e: Entry, rest: seq<Entry>)
    ensures Paths(data, [e] + rest) == {PathOf(data, e)} + Paths(data, rest)
  {
    assert forall f :: f in [e] + rest <==> f == e || f in rest;
  }

  /** The loop over the extensions behind the entries. */
  method ReadExtensions(data: bytes, start: nat, end: nat) returns (plain: bool)
    requires end <= |data|
    ensures plain == PlainExtensions(data, start, end)
  {
    var offset := start;
    while offset < end
      invariant PlainExtensions(data, start, end) == PlainExtensions(data, offset, end)
    {
      if offset + 8 > end {
        return false;
      }
      var signature := data[offset..offset + 4];
      var size := U32(data, offset + 4);
      offset := offset + 8;
      if size > end - offset {
        return false;
      }
      if signature == LINK {
        return false;
      }
      offset := offset + size;
    }
    return offset == end;
  }

  /** The entry loop of the parser: the paths of all entries and where the last one ends. */
  method ReadPaths(data: bytes, read: Reader, count: nat) returns (ok: bool, tracked: set<bytes>, stop: nat)
    ensures var l := EntriesFrom(read, HEADER, count);
            && (ok <==> l.Some?)
            && (ok ==> tracked == Paths(data, l.value.entries) && stop == l.value.stop)
  {
    ok, tracked, stop := false, {}, HEADER;
    ghost var whole := EntriesFrom(read, HEADER, count);
    for index := 0 to count
      invariant !ok
      invariant var rest := EntriesFrom(read, stop, count - index);
                && (whole.Some? <==> rest.Some?)
                && (whole.Some? ==> whole.value.stop == rest.value.stop
                                    && Paths(data, whole.value.entries) == tracked + Paths(data, rest.value.entries))
    {
      var entry := read(stop);
      if entry.None? {
        return;
      }
      ghost var rest := EntriesFrom(read, entry.value.next, count - index - 1);
      if rest.Some? {
        PathsCons(data, entry.value, rest.value.entries);
      }
      tracked := tracked + {PathOf(data, entry.value)};
      stop := entry.value.next;
    }
    ok := true;
  }

  /** `_parse_index_tracked_paths`. */
  method ParseIndexTrackedPaths(sha1: Hash, data: bytes) returns (r: Option<set<bytes>>)
    ensures r == Tracked(sha1, data)
  {
    var header := HeaderOf(sha1, data);
    if header.None? {
      return None;
    }
    var ok, tracked, stop := ReadPaths(data, ReaderOf(data, header.value.version), header.value.count);
    if !ok {
      return None;
    }
    var plain := ReadExtensions(data, stop, |data| - TRAILER);
    return if plain then Some(tracked) else None;
  }
}
