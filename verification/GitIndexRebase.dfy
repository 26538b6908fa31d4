/** Rebinding the cached stat data of a Git index to the files of a projection
    (`_rebase_index_stat_cache_for_projection`): the rewriter and its laws. */
module GitIndexRebase {
  import opened Bytes
  import opened Wrappers
  import opened GitIndex

  /** What a held file reports: whether it is regular, its times in nanoseconds and its size. */
  datatype Stat = Stat(regular: bool, ctime: int, mtime: int, size: nat)

  /** `Unreadable` is every failure to hold or to stat a path except its absence. */
  datatype Presence = Missing | Unreadable | Present(stat: Stat)

  /** The files below one root, by the slashed path of the index. */
  type StatView = bytes -> Presence

  function Seconds(nanoseconds: int): (s: nat)
    ensures s < WORD
  {
    nanoseconds / 1_000_000_000 % 0x1_0000_0000
  }

  function Remainder(nanoseconds: int): (n: nat)
    ensures n < WORD
  {
    nanoseconds % 1_000_000_000
  }

  /** The components between the slashes. */
  function Components(path: bytes): (parts: seq<bytes>)
    ensures |parts| > 0
  {
    var slash := Find(path, 0x2F, 0, |path|);
    if slash < 0 then [path] else [path[..slash]] + Components(path[slash + 1..])
  }

  predicate Safe(path: bytes) {
    0x3A !in path && forall part <- Components(path) :: part != [] && part != [0x2E] && part != [0x2E, 0x2E]
  }

  /** The stat cache of the entry at `start` describes `s` exactly. */
  predicate Current(data: bytes, start: nat, s: Stat)
    requires start + FIXED <= |data|
  {
    && U32(data, start) == Seconds(s.ctime) && U32(data, start + 4) == Remainder(s.ctime)
    && U32(data, start + 8) == Seconds(s.mtime) && U32(data, start + 12) == Remainder(s.mtime)
    && U32(data, start + 36) == s.size
  }

  /** No unresolved stage, no flag the program does not understand, a path below the root. */
  predicate Plain(data: bytes, version: nat, e: Entry)
    requires e.start + FIXED <= e.path < e.nul < |data|
  {
    var flags := U16(data, e.start + 60);
    && !Staged(flags)
    && (Extended(flags) ==>
          version >= 3 && (e.start + FIXED + 2 <= |data| ==> !Unsupported(U16(data, e.start + FIXED))))
    && Safe(PathOf(data, e))
  }

  /** What becomes of one entry. */
  datatype Binding = Refuse | Keep | Rebind(stat: Stat)

  type Decision = Entry -> Binding

  /** An entry whose path is absent from the source keeps its cache, so a tracked deletion stays one. An
      entry whose cache is exactly current is bound to the projected file. Everything else is refused. */
  function Decide(data: bytes, version: nat, source: StatView, destination: StatView, e: Entry): Binding {
    if !(e.start + FIXED <= e.path < e.nul < |data|) || !Plain(data, version, e) then Refuse
    else
      match source(PathOf(data, e))
      case Missing => Keep
      case Unreadable => Refuse
      case Present(s) =>
        if !s.regular || !Current(data, e.start, s) then Refuse
        else
          match destination(PathOf(data, e))
          case Present(d) => if d.regular && d.size < WORD then Rebind(d) else Refuse
          case _ => Refuse
  }

  function Decider(data: bytes, version: nat, source: StatView, destination: StatView): Decision {
    e => Decide(data, version, source, destination, e)
  }

  /** Byte `i` of a buffer whose entry at `start` caches `s`: two times at offset 0 and the size at 36. */
  function StampedByte(buffer: bytes, start: nat, s: Stat, i: nat): byte
    requires i < |buffer| && s.size < WORD
  {
    if i < start || start + 40 <= i then buffer[i]
    else if i < start + 4 then PackedByte(Seconds(s.ctime), i - start)
    else if i < start + 8 then PackedByte(Remainder(s.ctime), i - start - 4)
    else if i < start + 12 then PackedByte(Seconds(s.mtime), i - start - 8)
    else if i < start + 16 then PackedByte(Remainder(s.mtime), i - start - 12)
    else if i < start + 36 then buffer[i]
    else PackedByte(s.size, i - start - 36)
  }

  function Stamped(buffer: bytes, start: nat, s: Stat): (r: bytes)
    requires s.size < WORD
    ensures |r| == |buffer|
  {
    seq(|buffer|, i requires 0 <= i < |buffer| => StampedByte(buffer, start, s, i))
  }

  type Patch = (bytes, Entry, Binding) -> bytes

  function Patched(buffer: bytes, e: Entry, binding: Binding): (r: bytes)
    ensures |r| == |buffer|
  {
    if binding.Rebind? && e.start + FIXED <= |buffer| && binding.stat.size < WORD
    then Stamped(buffer, e.start, binding.stat)
    else buffer
  }

  /** The buffer after each entry of the sequence had its turn; `patch` is always `Patched`. */
  function PatchedAll(buffer: bytes, entries: seq<Entry>, decide: Decision, patch: Patch): bytes
    decreases |entries|
  {
    if entries == [] then buffer
    else PatchedAll(patch(buffer, entries[0], decide(entries[0])), entries[1..], decide, patch)
  }

  lemma {:induction false} PatchedAllLength(buffer: bytes, entries: seq<Entry>, decide: Decision)
    ensures |PatchedAll(buffer, entries, decide, Patched)| == |buffer|
    decreases |entries|
  {
    if entries != [] {
      PatchedAllLength(Patched(buffer, entries[0], decide(entries[0])), entries[1..], decide);
    }
  }

  predicate NoneRefused(entries: seq<Entry>, decide: Decision) {
    forall e <- entries :: decide(e) != Refuse
  }

  /** Replaces the trailer by the checksum of everything before it. */
  function Resealed(sha1: Hash, body: bytes): (r: bytes)
    ensures |r| == |body|
  {
    if |body| < TRAILER then body else body[..|body| - TRAILER] + sha1(body[..|body| - TRAILER])
  }

  /** The state of the rewriter after the `count` entries from `start` on: the buffer and where they end. */
  function RebindFrom(read: Reader, buffer: bytes, start: nat, count: nat, decide: Decision, patch: Patch)
    : Option<(bytes, nat)>
    decreases count
  {
    if count == 0 then Some((buffer, start))
    else
      match read(start)
      case None => None
      case Some(e) =>
        if decide(e) == Refuse then None
        else RebindFrom(read, patch(buffer, e, decide(e)), e.next, count - 1, decide, patch)
  }

  /** What the rewriter returns; `None` is `GitBrokerUnavailable`. */
  function Rebased(sha1: Hash, data: bytes, source: StatView, destination: StatView): Option<bytes> {
    match HeaderOf(sha1, data)
    case None => None
    case Some(h) =>
      RebasedFrom(sha1, data, ReaderOf(data, h.version), h.count, Decider(data, h.version, source, destination))
  }

  /** The same behind the header. */
  function RebasedFrom(sha1: Hash, data: bytes, read: Reader, count: nat, decide: Decision): Option<bytes>
    requires |data| >= TRAILER
  {
    match RebindFrom(read, data, HEADER, count, decide, Patched)
    case None => None
    case Some((body, stop)) =>
      if PlainExtensions(data, stop, |data| - TRAILER) then Some(Resealed(sha1, body)) else None
  }

  lemma {:induction false} RebindFromLayout(read: Reader, buffer: bytes, start: nat, count: nat, decide: Decision,
                                            patch: Patch)
    ensures var l := EntriesFrom(read, start, count);
            var r := RebindFrom(read, buffer, start, count, decide, patch);
            && (r.Some? <==> l.Some? && NoneRefused(l.value.entries, decide))
            && (r.Some? ==>
                  r.value.0 == PatchedAll(buffer, l.value.entries, decide, patch) && r.value.1 == l.value.stop)
    decreases count
  {
    if count > 0 && read(start).Some? {
      var e := read(start).value;
      var rest := EntriesFrom(read, e.next, count - 1);
      RebindFromLayout(read, patch(buffer, e, decide(e)), e.next, count - 1, decide, patch);
      if rest.Some? {
        var all := [e] + rest.value.entries;
        assert EntriesFrom(read, start, count) == Some(Layout(all, rest.value.stop));
        assert all[0] == e && all[1..] == rest.value.entries;
        assert NoneRefused(all, decide) <==> decide(e) != Refuse && NoneRefused(rest.value.entries, decide);
      }
    }
  }

  /** `struct.pack_into(">I", buffer, at, v)`. */
  method PackInto(buffer: array<byte>, at: nat, v: nat)
    requires at + 4 <= buffer.Length && v < WORD
    modifies buffer
    ensures forall i :: 0 <= i < buffer.Length ==>
              buffer[i] == if at <= i < at + 4 then PackedByte(v, i - at) else old(buffer[i])
  {
    buffer[at], buffer[at + 1] := PackedByte(v, 0), PackedByte(v, 1);
    buffer[at + 2], buffer[at + 3] := PackedByte(v, 2), PackedByte(v, 3);
  }

  method PackTime(buffer: array<byte>, at: nat, t: int)
    requires at + 8 <= buffer.Length
    modifies buffer
    ensures forall i :: 0 <= i < buffer.Length ==>
              buffer[i] == if at <= i < at + 4 then PackedByte(Seconds(t), i - at)
                           else if at + 4 <= i < at + 8 then PackedByte(Remainder(t), i - at - 4)
                           else old(buffer[i])
  {
    PackInto(buffer, at, Seconds(t));
    PackInto(buffer, at + 4, Remainder(t));
  }

  method StampEntry(buffer: array<byte>, start: nat, s: Stat)
    requires start + FIXED <= buffer.Length && s.size < WORD
    modifies buffer
    ensures buffer[..] == Stamped(old(buffer[..]), start, s)
  {
    PackTime(buffer, start, s.ctime);
    PackTime(buffer, start + 8, s.mtime);
    PackInto(buffer, start + 36, s.size);
  }

  /** What the loop body does to the buffer once the entry is admitted. */
  method RebindEntry(buffer: array<byte>, e: Entry, binding: Binding)
    modifies buffer
    ensures buffer[..] == Patched(old(buffer[..]), e, binding)
  {
    if binding.Rebind? && e.start + FIXED <= buffer.Length && binding.stat.size < WORD {
      StampEntry(buffer, e.start, binding.stat);
    }
  }

  /** The entry loop of the rewriter, patching a copy of the index in place. */
  method RebindEntries(read: Reader, buffer: array<byte>, count: nat, decide: Decision) returns (ok: bool, stop: nat)
    modifies buffer
    ensures var rebound := RebindFrom(read, old(buffer[..]), HEADER, count, decide, Patched);
            && (ok <==> rebound.Some?)
            && (ok ==> buffer[..] == rebound.value.0 && stop == rebound.value.1)
  {
    ok, stop := false, HEADER;
    ghost var rebound := RebindFrom(read, buffer[..], HEADER, count, decide, Patched);
    for index := 0 to count
      invariant !ok && rebound == RebindFrom(read, buffer[..], stop, count - index, decide, Patched)
    {
      var entry := read(stop);
      if entry.None? {
        return;
      }
      var binding := decide(entry.value);
      if binding == Refuse {
        return;
      }
      RebindEntry(buffer, entry.value, binding);
      stop := entry.value.next;
    }
    ok := true;
  }

  /** One pass over the entries, one over the extensions, and a fresh checksum over the patched copy. */
  method RebasePayload(sha1: Hash, data: bytes, read: Reader, count: nat, decide: Decision) returns (r: Option<bytes>)
    requires |data| >= TRAILER
    ensures r == RebasedFrom(sha1, data, read, count, decide)
  {
    var buffer := new byte[|data|](i requires 0 <= i < |data| => data[i]);
    assert buffer[..] == data;
    var ok, stop := RebindEntries(read, buffer, count, decide);
    if !ok {
      return None;
    }
    var body := buffer[..];
    var plain := ReadExtensions(data, stop, |data| - TRAILER);
    return if plain then Some(Resealed(sha1, body)) else None;
  }

  /** `_rebase_index_stat_cache_for_projection`. */
  method RebaseIndex(sha1: Hash, data: bytes, source: StatView, destination: StatView) returns (r: Option<bytes>)
    ensures r == Rebased(sha1, data, source, destination)
  {
    var header := HeaderOf(sha1, data);
    if header.None? {
      return None;
    }
    var h := header.value;
    r := RebasePayload(sha1, data, ReaderOf(data, h.version), h.count, Decider(data, h.version, source, destination));
  }

  /** The rewriter in terms of the layout of its input: it succeeds when the index is one the parser
      understands and no entry is refused, and then every entry was treated by its own decision. */
  lemma RebasedMeaning(sha1: Hash, data: bytes, source: StatView, destination: StatView)
    ensures var l := LayoutOf(sha1, data);
            var r := Rebased(sha1, data, source, destination);
            && (r.Some? <==> l.Some? && NoneRefused(l.value.entries, Choices(sha1, data, source, destination)))
            && (r.Some? ==>
                  r.value == Resealed(sha1, PatchedAll(data, l.value.entries,
                                                       Choices(sha1, data, source, destination), Patched)))
  {
    match HeaderOf(sha1, data)
    case None =>
    case Some(h) =>
      RebindFromLayout(ReaderOf(data, h.version), data, HEADER, h.count,
                       Decider(data, h.version, source, destination), Patched);
  }

  /** The decisions the rewriter takes on the entries of `data`. */
  function Choices(sha1: Hash, data: bytes, source: StatView, destination: StatView): Decision {
    match HeaderOf(sha1, data)
    case None => _ => Refuse
    case Some(h) => Decider(data, h.version, source, destination)
  }

  // ---- What the rewriting leaves alone ----

  /** The bytes of the entry at `start` that hold its times and its size. */
  predicate StatWindow(i: nat, start: nat) {
    start <= i < start + 16 || start + 36 <= i < start + 40
  }

  predicate Covered(i: nat, entries: seq<Entry>) {
    exists e <- entries :: StatWindow(i, e.start)
  }

  lemma PatchedFrame(buffer: bytes, e: Entry, binding: Binding, i: nat)
    requires i < |buffer| && !StatWindow(i, e.start)
    ensures Patched(buffer, e, binding)[i] == buffer[i]
  {
  }

  /** Rebinding writes nothing outside the stat windows of the entries. */
  lemma {:induction false} PatchedAllFrame(buffer: bytes, entries: seq<Entry>, decide: Decision, i: nat)
    requires i < |buffer| && !Covered(i, entries)
    ensures |PatchedAll(buffer, entries, decide, Patched)| == |buffer|
    ensures PatchedAll(buffer, entries, decide, Patched)[i] == buffer[i]
    decreases |entries|
  {
    PatchedAllLength(buffer, entries, decide);
    if entries != [] {
      assert entries[0] in entries;
      PatchedFrame(buffer, entries[0], decide(entries[0]), i);
      PatchedAllFrame(Patched(buffer, entries[0], decide(entries[0])), entries[1..], decide, i);
    }
  }

  /** Two files of one length that differ only in stat windows of the entries and in the trailer. */
  predicate SameShape(a: bytes, b: bytes, entries: seq<Entry>) {
    && |a| == |b| && |a| >= TRAILER
    && forall i :: 0 <= i < |a| - TRAILER && !Covered(i, entries) ==> a[i] == b[i]
  }

  lemma EntryAtAgrees(a: bytes, b: bytes, version: nat, start: nat, end: nat)
    requires |a| == |b| && end <= |a| && EntryAt(a, version, start, end).Some?
    requires forall i :: start + 40 <= i < EntryAt(a, version, start, end).value.next ==> a[i] == b[i]
    ensures EntryAt(b, version, start, end) == EntryAt(a, version, start, end)
  {
    var e := EntryAt(a, version, start, end).value;
    assert U16(a, start + 60) == U16(b, start + 60);
    assert a[e.path..e.nul + 1] == b[e.path..e.nul + 1];
    FindAgrees(a, b, 0, e.path, end);
  }

  /** The entry at `start` is found again, at the same place, in every file that keeps what lies
      behind its stat fields. */
  lemma EntryAgrees(a: bytes, b: bytes, version: nat, start: nat)
    requires |a| == |b| && |a| >= TRAILER && ReaderOf(a, version)(start).Some?
    requires forall i :: start + 40 <= i < ReaderOf(a, version)(start).value.next ==> a[i] == b[i]
    ensures ReaderOf(b, version)(start) == ReaderOf(a, version)(start)
  {
    EntryAtAgrees(a, b, version, start, |a| - TRAILER);
  }

  /** A reader reports the offset it was asked for. */
  ghost predicate Located(read: Reader) {
    forall start: nat :: read(start).Some? ==> read(start).value.start == start
  }

  /** A layout depends only on what is read at the starts of its entries. */
  lemma {:induction false} EntriesAgree(a: Reader, b: Reader, start: nat, count: nat)
    requires Located(a) && EntriesFrom(a, start, count).Some?
    ensures forall e <- EntriesFrom(a, start, count).value.entries :: a(e.start) == Some(e)
    ensures (forall e <- EntriesFrom(a, start, count).value.entries :: b(e.start) == Some(e)) ==>
              EntriesFrom(b, start, count) == EntriesFrom(a, start, count)
    decreases count
  {
    if count > 0 {
      var e := a(start).value;
      var rest := EntriesFrom(a, e.next, count - 1).value;
      assert EntriesFrom(a, start, count).value.entries == [e] + rest.entries;
      assert e in [e] + rest.entries && forall f :: f in rest.entries ==> f in [e] + rest.entries;
      EntriesAgree(a, b, e.next, count - 1);
    }
  }

  lemma {:induction false} ExtensionsAgree(a: bytes, b: bytes, start: nat, end: nat)
    requires |a| == |b| && end <= |a|
    requires forall i :: start <= i < end ==> a[i] == b[i]
    ensures PlainExtensions(a, start, end) == PlainExtensions(b, start, end)
    decreases |a| - start
  {
    if start < end && start + 8 <= end {
      assert U32(a, start + 4) == U32(b, start + 4);
      assert a[start..start + 4] == b[start..start + 4];
      if U32(a, start + 4) <= end - (start + 8) {
        ExtensionsAgree(a, b, start + 8 + U32(a, start + 4), end);
      }
    }
  }

  /** Every entry of a layout is read again, where it was, from a file of the same shape. */
  lemma ReadersAgree(a: bytes, b: bytes, version: nat, entries: seq<Entry>)
    requires SameShape(a, b, entries) && Chained(entries, HEADER, |a| - TRAILER)
    requires forall e <- entries :: ReaderOf(a, version)(e.start) == Some(e)
    ensures forall e <- entries :: ReaderOf(b, version)(e.start) == Some(e)
  {
    forall e | e in entries
      ensures ReaderOf(b, version)(e.start) == Some(e)
    {
      PathUncovered(entries, HEADER, |a| - TRAILER, e);
      EntryAgrees(a, b, version, e.start);
    }
  }

  lemma TailAgrees(a: bytes, b: bytes, entries: seq<Entry>, stop: nat)
    requires SameShape(a, b, entries) && Chained(entries, HEADER, stop) && stop <= |a| - TRAILER
    ensures PlainExtensions(a, stop, |a| - TRAILER) == PlainExtensions(b, stop, |b| - TRAILER)
  {
    forall i | stop <= i < |a| - TRAILER
      ensures a[i] == b[i]
    {
      assert !Covered(i, entries);
    }
    ExtensionsAgree(a, b, stop, |a| - TRAILER);
  }

  /** Every reader sees the same entries in a sealed file of the same shape. */
  lemma SameShapeSameLayout(sha1: Hash, a: bytes, b: bytes)
    requires LayoutOf(sha1, a).Some? && SameShape(a, b, LayoutOf(sha1, a).value.entries)
    requires sha1(b[..|b| - TRAILER]) == b[|b| - TRAILER..]
    ensures HeaderOf(sha1, b) == HeaderOf(sha1, a)
    ensures LayoutOf(sha1, b) == LayoutOf(sha1, a)
  {
    var h, l := HeaderOf(sha1, a).value, LayoutOf(sha1, a).value;
    HeaderAgrees(sha1, a, b);
    var readA, readB := ReaderOf(a, h.version), ReaderOf(b, h.version);
    assert Located(readA);
    EntriesAgree(readA, readB, HEADER, h.count);
    EntriesChained(a, h.version, HEADER, h.count);
    LayoutChained(sha1, a);
    ReadersAgree(a, b, h.version, l.entries);
    TailAgrees(a, b, l.entries, l.stop);
  }

  lemma HeaderAgrees(sha1: Hash, a: bytes, b: bytes)
    requires LayoutOf(sha1, a).Some? && SameShape(a, b, LayoutOf(sha1, a).value.entries)
    requires sha1(b[..|b| - TRAILER]) == b[|b| - TRAILER..]
    ensures HeaderOf(sha1, b) == HeaderOf(sha1, a)
  {
    LayoutChained(sha1, a);
    forall i | 0 <= i < HEADER
      ensures a[i] == b[i]
    {
      assert !Covered(i, LayoutOf(sha1, a).value.entries);
    }
    HeaderBytes(sha1, a, b);
  }

  /** The header is read from the first twelve bytes. */
  lemma HeaderBytes(sha1: Hash, a: bytes, b: bytes)
    requires Sealed(sha1, a) && |b| == |a| && sha1(b[..|b| - TRAILER]) == b[|b| - TRAILER..]
    requires forall i :: 0 <= i < HEADER ==> a[i] == b[i]
    ensures HeaderOf(sha1, b) == HeaderOf(sha1, a)
  {
    assert b[..4] == a[..4];
    assert U32(b, 4) == U32(a, 4) && U32(b, 8) == U32(a, 8);
  }

  lemma PathsAgree(sha1: Hash, a: bytes, b: bytes)
    requires LayoutOf(sha1, a).Some? && SameShape(a, b, LayoutOf(sha1, a).value.entries)
    ensures forall e <- LayoutOf(sha1, a).value.entries :: PathOf(b, e) == PathOf(a, e)
    ensures Paths(b, LayoutOf(sha1, a).value.entries) == Paths(a, LayoutOf(sha1, a).value.entries)
  {
    LayoutChained(sha1, a);
    var entries := LayoutOf(sha1, a).value.entries;
    forall e | e in entries
      ensures PathOf(b, e) == PathOf(a, e)
    {
      PathUncovered(entries, HEADER, |a| - TRAILER, e);
      assert a[e.path..e.nul] == b[e.path..e.nul];
    }
  }

  lemma PathUncovered(entries: seq<Entry>, start: nat, end: nat, e: Entry)
    requires Chained(entries, start, end) && e in entries
    ensures forall i :: e.start + 40 <= i < e.next ==> !Covered(i, entries)
  {
    forall i, f | e.start + 40 <= i < e.next && f in entries
      ensures !StatWindow(i, f.start)
    {
      var j :| 0 <= j < |entries| && entries[j] == e;
      var k :| 0 <= k < |entries| && entries[k] == f;
      if k < j {
        assert entries[k].next <= entries[j].start;
      } else if j < k {
        assert entries[j].next <= entries[k].start;
      }
    }
  }

  /** Sealing the patched entries again keeps the shape, and gives a valid checksum. */
  lemma ResealedShape(sha1: Hash, data: bytes, entries: seq<Entry>, decide: Decision)
    requires |data| >= TRAILER
    ensures var r := Resealed(sha1, PatchedAll(data, entries, decide, Patched));
            SameShape(data, r, entries) && sha1(r[..|r| - TRAILER]) == r[|r| - TRAILER..]
  {
    var body := PatchedAll(data, entries, decide, Patched);
    var r := Resealed(sha1, body);
    PatchedAllLength(data, entries, decide);
    forall i | 0 <= i < |data| - TRAILER && !Covered(i, entries)
      ensures r[i] == data[i]
    {
      PatchedAllFrame(data, entries, decide, i);
    }
    assert r[..|r| - TRAILER] == body[..|body| - TRAILER];
  }

  /** The rewritten index has the length of its input and differs from it only in the cached times and
      sizes of its entries and in the trailer; its checksum is valid; every entry is found again where it
      was, and the parser returns the same tracked paths for both. */
  lemma RebasePreserves(sha1: Hash, data: bytes, source: StatView, destination: StatView)
    requires Rebased(sha1, data, source, destination).Some?
    ensures LayoutOf(sha1, data).Some?
    ensures var r := Rebased(sha1, data, source, destination).value;
            && SameShape(data, r, LayoutOf(sha1, data).value.entries)
            && sha1(r[..|r| - TRAILER]) == r[|r| - TRAILER..]
            && LayoutOf(sha1, r) == LayoutOf(sha1, data)
            && Tracked(sha1, r) == Tracked(sha1, data)
  {
    RebasedMeaning(sha1, data, source, destination);
    LayoutChained(sha1, data);
    var r := Rebased(sha1, data, source, destination).value;
    ResealedShape(sha1, data, LayoutOf(sha1, data).value.entries, Choices(sha1, data, source, destination));
    SameShapeSameLayout(sha1, data, r);
    PathsAgree(sha1, data, r);
  }

  // ---- What the rewriting writes, and that it writes it once ----

  lemma PatchedLocal(a: bytes, b: bytes, e: Entry, binding: Binding, i: nat)
    requires |a| == |b| && i < |a| && a[i] == b[i]
    ensures Patched(a, e, binding)[i] == Patched(b, e, binding)[i]
  {
  }

  /** The first entry of a chain is touched by its own decision only. */
  lemma PatchedFirst(buffer: bytes, entries: seq<Entry>, decide: Decision, start: nat, i: nat)
    requires entries != [] && Chained(entries, start, |buffer|) && entries[0].start <= i < entries[0].next
    ensures |PatchedAll(buffer, entries, decide, Patched)| == |buffer|
    ensures PatchedAll(buffer, entries, decide, Patched)[i] == Patched(buffer, entries[0], decide(entries[0]))[i]
  {
    var rest := entries[1..];
    forall f | f in rest
      ensures !StatWindow(i, f.start)
    {
      var j :| 0 <= j < |rest| && rest[j] == f;
      assert entries[0].next <= entries[j + 1].start;
    }
    PatchedAllFrame(Patched(buffer, entries[0], decide(entries[0])), rest, decide, i);
  }

  lemma ChainedRest(entries: seq<Entry>, start: nat, end: nat, k: nat)
    requires Chained(entries, start, end) && 0 < k < |entries|
    ensures Chained(entries[1..], start, end) && entries[1..][k - 1] == entries[k]
    ensures entries[0].start + FIXED < entries[0].next <= entries[k].start
  {
    assert forall f :: f in entries[1..] ==> f in entries;
    assert entries[0] in entries;
  }

  /** Between its start and the next entry, only an entry's own decision has touched the buffer. */
  lemma {:induction false} PatchedOnce(buffer: bytes, entries: seq<Entry>, decide: Decision, start: nat, k: nat, i: nat)
    requires Chained(entries, start, |buffer|) && k < |entries| && entries[k].start <= i < entries[k].next
    ensures |PatchedAll(buffer, entries, decide, Patched)| == |buffer| && i < |buffer|
    ensures PatchedAll(buffer, entries, decide, Patched)[i] == Patched(buffer, entries[k], decide(entries[k]))[i]
    decreases |entries|
  {
    assert entries[k] in entries;
    if k == 0 {
      PatchedFirst(buffer, entries, decide, start, i);
    } else {
      ChainedRest(entries, start, |buffer|, k);
      var patched := Patched(buffer, entries[0], decide(entries[0]));
      PatchedFrame(buffer, entries[0], decide(entries[0]), i);
      PatchedLocal(buffer, patched, entries[k], decide(entries[k]), i);
      PatchedOnce(patched, entries[1..], decide, start, k - 1, i);
    }
  }

  /** The stat fields at `start` are the packed fields of `s`. */
  predicate Cached(b: bytes, start: nat, s: Stat)
    requires start + FIXED <= |b| && s.size < WORD
  {
    && Holds(b, start, Seconds(s.ctime)) && Holds(b, start + 4, Remainder(s.ctime))
    && Holds(b, start + 8, Seconds(s.mtime)) && Holds(b, start + 12, Remainder(s.mtime))
    && Holds(b, start + 36, s.size)
  }

  lemma CachedIsCurrent(b: bytes, start: nat, s: Stat)
    requires start + FIXED <= |b| && s.size < WORD
    ensures Cached(b, start, s) == Current(b, start, s)
  {
    HoldsReads(b, start, Seconds(s.ctime));
    HoldsReads(b, start + 4, Remainder(s.ctime));
    HoldsReads(b, start + 8, Seconds(s.mtime));
    HoldsReads(b, start + 12, Remainder(s.mtime));
    HoldsReads(b, start + 36, s.size);
  }

  lemma StampedCached(buffer: bytes, start: nat, s: Stat)
    requires start + FIXED <= |buffer| && s.size < WORD
    ensures Cached(Stamped(buffer, start, s), start, s)
    ensures Cached(buffer, start, s) ==> Stamped(buffer, start, s) == buffer
  {
    if Cached(buffer, start, s) {
      forall i | 0 <= i < |buffer|
        ensures StampedByte(buffer, start, s, i) == buffer[i]
      {
        if start <= i < start + 40 {
          StampedByteCached(buffer, start, s, i);
        }
      }
    }
  }

  lemma StampedByteCached(buffer: bytes, start: nat, s: Stat, i: nat)
    requires start + FIXED <= |buffer| && s.size < WORD && Cached(buffer, start, s) && start <= i < start + 40
    ensures StampedByte(buffer, start, s, i) == buffer[i]
  {
    assert i - start == 0 || i - start == 1 || i - start == 2 || i - start == 3 || i - start >= 4;
    assert i - start < 4 || i - start == 4 || i - start == 5 || i - start == 6 || i - start == 7 || i - start >= 8;
    assert i - start < 8 || i - start == 8 || i - start == 9 || i - start == 10 || i - start == 11 || i - start >= 12;
    assert i - start < 12 || i - start == 12 || i - start == 13 || i - start == 14 || i - start == 15
      || i - start >= 16;
    assert i - start < 36 || i - start == 36 || i - start == 37 || i - start == 38 || i - start == 39;
  }

  /** The stat fields of an entry read the same in buffers that agree on its window. */
  lemma CurrentAgrees(a: bytes, b: bytes, start: nat, s: Stat)
    requires start + FIXED <= |a| && |a| == |b|
    requires forall i :: start <= i < start + 40 ==> a[i] == b[i]
    ensures Current(a, start, s) == Current(b, start, s)
  {
  }

  /** What one entry of the rewritten index caches: the projected file when its path is present in the
      source, and what it cached before when the path is absent. */
  lemma RebaseBinds(sha1: Hash, data: bytes, source: StatView, destination: StatView, r: bytes, e: Entry)
    requires Rebased(sha1, data, source, destination) == Some(r)
    requires LayoutOf(sha1, data).Some? && e in LayoutOf(sha1, data).value.entries
    ensures e.start + FIXED < e.next <= |r| == |data|
    ensures match source(PathOf(data, e))
            case Unreadable => false
            case Missing => r[e.start..e.next] == data[e.start..e.next]
            case Present(s) =>
              && Current(data, e.start, s)
              && destination(PathOf(data, e)).Present?
              && Current(r, e.start, destination(PathOf(data, e)).stat)
  {
    EntryPatched(sha1, data, source, destination, r, e);
    BoundEntry(data, HeaderOf(sha1, data).value.version, source, destination, r, e);
  }

  /** An entry of the rewritten index is what its own decision makes of it. */
  lemma EntryPatched(sha1: Hash, data: bytes, source: StatView, destination: StatView, r: bytes, e: Entry)
    requires Rebased(sha1, data, source, destination) == Some(r)
    requires LayoutOf(sha1, data).Some? && e in LayoutOf(sha1, data).value.entries
    ensures e.start + FIXED < e.next <= |r| == |data| && HeaderOf(sha1, data).Some?
    ensures var decided := Decide(data, HeaderOf(sha1, data).value.version, source, destination, e);
            decided != Refuse && forall i :: e.start <= i < e.next ==> r[i] == Patched(data, e, decided)[i]
  {
    RebasedMeaning(sha1, data, source, destination);
    LayoutChained(sha1, data);
    var entries, decide := LayoutOf(sha1, data).value.entries, Choices(sha1, data, source, destination);
    var k :| 0 <= k < |entries| && entries[k] == e;
    PatchedAllLength(data, entries, decide);
    forall i | e.start <= i < e.next
      ensures r[i] == Patched(data, e, decide(e))[i]
    {
      PatchedOnce(data, entries, decide, HEADER, k, i);
    }
  }

  lemma BoundEntry(data: bytes, version: nat, source: StatView, destination: StatView, r: bytes, e: Entry)
    requires Decide(data, version, source, destination, e) != Refuse
    requires e.start + FIXED <= e.next <= |r| == |data|
    requires forall i :: e.start <= i < e.next ==>
                           r[i] == Patched(data, e, Decide(data, version, source, destination, e))[i]
    ensures match source(PathOf(data, e))
            case Unreadable => false
            case Missing => r[e.start..e.next] == data[e.start..e.next]
            case Present(s) =>
              && Current(data, e.start, s)
              && destination(PathOf(data, e)).Present?
              && Current(r, e.start, destination(PathOf(data, e)).stat)
  {
    if source(PathOf(data, e)).Present? {
      var s := destination(PathOf(data, e)).stat;
      var stamped := Stamped(data, e.start, s);
      assert Patched(data, e, Rebind(s)) == stamped;
      StampedCached(data, e.start, s);
      CachedIsCurrent(stamped, e.start, s);
      CurrentAgrees(stamped, r, e.start, s);
    }
  }

  /** The bytes a decision looks at besides the stat window: flags and path. */
  lemma PlainAgrees(a: bytes, b: bytes, version: nat, e: Entry)
    requires |a| == |b| && e.start + FIXED <= e.path < e.nul < |a|
    requires forall i :: e.start + 40 <= i <= e.nul ==> a[i] == b[i]
    ensures Plain(a, version, e) == Plain(b, version, e) && PathOf(a, e) == PathOf(b, e)
  {
    assert U16(a, e.start + 60) == U16(b, e.start + 60);
    assert U16(a, e.start + FIXED) == U16(b, e.start + FIXED);
    assert a[e.path..e.nul] == b[e.path..e.nul];
  }

  lemma {:induction false} PatchedAllSame(buffer: bytes, entries: seq<Entry>, decide: Decision)
    requires forall e <- entries :: Patched(buffer, e, decide(e)) == buffer
    ensures PatchedAll(buffer, entries, decide, Patched) == buffer
    decreases |entries|
  {
    if entries != [] {
      assert entries[0] in entries;
      PatchedAllSame(buffer, entries[1..], decide);
    }
  }

  /** The projection can stand in for the source at an entry that kept its cache: it lacks the path
      too, or its file is the one the index already described. */
  predicate Settled(data: bytes, e: Entry, p: Presence)
    requires e.start + FIXED <= |data|
  {
    p.Missing? || (p.Present? && p.stat.regular && p.stat.size < WORD && Current(data, e.start, p.stat))
  }

  /** Deciding again with the projection as both trees: no entry changes, and an entry is refused only
      when it kept its cache and the projection is not settled there. */
  lemma DecidedAgain(data: bytes, version: nat, source: StatView, destination: StatView, r: bytes, e: Entry)
    requires Decide(data, version, source, destination, e) != Refuse
    requires e.start + FIXED <= e.path < e.nul < e.next <= |r| == |data|
    requires forall i :: e.start + 40 <= i < e.next ==> r[i] == data[i]
    requires source(PathOf(data, e)).Missing? ==> r[e.start..e.next] == data[e.start..e.next]
    requires source(PathOf(data, e)).Present? ==> Current(r, e.start, destination(PathOf(data, e)).stat)
    ensures var again := Decide(r, version, destination, destination, e);
            && (again == Refuse <==>
                  source(PathOf(data, e)).Missing? && !Settled(data, e, destination(PathOf(data, e))))
            && Patched(r, e, again) == r
  {
    PlainAgrees(data, r, version, e);
    var d := destination(PathOf(data, e));
    if d.Present? {
      if source(PathOf(data, e)).Missing? {
        forall i | e.start <= i < e.start + 40
          ensures r[i] == data[i]
        {
          assert r[e.start..e.next][i - e.start] == data[e.start..e.next][i - e.start];
        }
        CurrentAgrees(data, r, e.start, d.stat);
      }
      if d.stat.size < WORD {
        CachedIsCurrent(r, e.start, d.stat);
        StampedCached(r, e.start, d.stat);
      }
    }
  }

  /** What the first pass has left behind the stat fields of an entry that it did not refuse. */
  lemma EntryLeft(sha1: Hash, data: bytes, source: StatView, destination: StatView, r: bytes, e: Entry)
    requires Rebased(sha1, data, source, destination) == Some(r)
    requires LayoutOf(sha1, data).Some? && e in LayoutOf(sha1, data).value.entries
    ensures Choices(sha1, data, source, destination)(e) != Refuse
    ensures e.start + FIXED <= e.path < e.nul < e.next <= |r| == |data|
    ensures forall i :: e.start + 40 <= i < e.next ==> r[i] == data[i]
  {
    var entries := LayoutOf(sha1, data).value.entries;
    RebasePreserves(sha1, data, source, destination);
    LayoutChained(sha1, data);
    RebasedMeaning(sha1, data, source, destination);
    PathUncovered(entries, HEADER, |data| - TRAILER, e);
  }

  lemma ChoicesAgain(sha1: Hash, data: bytes, source: StatView, destination: StatView, r: bytes, e: Entry)
    requires Rebased(sha1, data, source, destination) == Some(r)
    ensures HeaderOf(sha1, data).Some?
    ensures var version := HeaderOf(sha1, data).value.version;
            && Choices(sha1, data, source, destination)(e) == Decide(data, version, source, destination, e)
            && Choices(sha1, r, destination, destination)(e) == Decide(r, version, destination, destination, e)
  {
    RebasePreserves(sha1, data, source, destination);
    SameShapeSameLayout(sha1, data, r);
  }

  /** What a second pass decides on an entry, and that it changes nothing. */
  lemma EntryAgain(sha1: Hash, data: bytes, source: StatView, destination: StatView, r: bytes, e: Entry)
    requires Rebased(sha1, data, source, destination) == Some(r)
    requires e.start + FIXED <= |data|
    requires LayoutOf(sha1, data).Some? && e in LayoutOf(sha1, data).value.entries
    ensures var binding := Choices(sha1, r, destination, destination)(e);
            && (binding == Refuse
                <==> source(PathOf(data, e)).Missing? && !Settled(data, e, destination(PathOf(data, e))))
            && Patched(r, e, binding) == r
  {
    EntryLeft(sha1, data, source, destination, r, e);
    ChoicesAgain(sha1, data, source, destination, r, e);
    RebaseBinds(sha1, data, source, destination, r, e);
    DecidedAgain(data, HeaderOf(sha1, data).value.version, source, destination, r, e);
  }

  /** Rebasing is idempotent on the projection: a second pass with the projection as source and as
      destination either fails or returns the very same bytes, and it succeeds exactly when every path
      that was absent from the source is settled in the projection. */
  lemma RebaseIdempotent(sha1: Hash, data: bytes, source: StatView, destination: StatView, r: bytes)
    requires Rebased(sha1, data, source, destination) == Some(r)
    ensures LayoutOf(sha1, data).Some?
    ensures var again := Rebased(sha1, r, destination, destination);
            && (again.Some? ==> again == Some(r))
            && (again.Some? <==>
                  forall e <- LayoutOf(sha1, data).value.entries | source(PathOf(data, e)).Missing? ::
                    e.start + FIXED <= |data| && Settled(data, e, destination(PathOf(data, e))))
  {
    RebasePreserves(sha1, data, source, destination);
    var entries, decide := LayoutOf(sha1, data).value.entries, Choices(sha1, r, destination, destination);
    LayoutChained(sha1, data);
    SameShapeSameLayout(sha1, data, r);
    RebasedMeaning(sha1, r, destination, destination);
    forall e | e in entries
      ensures decide(e) == Refuse
            <==> source(PathOf(data, e)).Missing? && !Settled(data, e, destination(PathOf(data, e)))
      ensures Patched(r, e, decide(e)) == r
    {
      EntryAgain(sha1, data, source, destination, r, e);
    }
    PatchedAllSame(r, entries, decide);
    assert Resealed(sha1, r) == r;
  }
}
