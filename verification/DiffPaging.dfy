/** Pages of a regenerated diff, of a file's bytes and of the list of changed paths: windows of one
    sequence, which a reader who follows `next_offset` puts together again. */
module DiffPaging {
  import opened Wrappers
  import opened Bytes

  // ---- Windows ----

  function Window<T>(s: seq<T>, offset: nat, maximum: nat): seq<T>
    requires offset <= |s|
  {
    s[offset..if offset + maximum < |s| then offset + maximum else |s|]
  }

  /** What a page holds, and where the next one begins. */
  datatype Page<T> = Page(items: seq<T>, total: nat, next: Option<nat>, eof: bool)

  function PageOf<T>(s: seq<T>, offset: nat, maximum: nat): Page<T>
    requires offset <= |s|
  {
    var items := Window(s, offset, maximum);
    var end := offset + |items|;
    Page(items, |s|, if end < |s| then Some(end) else None, end >= |s|)
  }

  /** A reader who asks for `sizes(k)` items with request `k` and follows `next_offset`. */
  function Follow<T>(s: seq<T>, sizes: nat -> nat, offset: nat, k: nat): seq<Page<T>>
    requires offset <= |s| && forall n :: sizes(n) > 0
    decreases |s| - offset
  {
    var page := PageOf(s, offset, sizes(k));
    [page] + (if page.next.None? then [] else Follow(s, sizes, page.next.value, k + 1))
  }

  function Joined<T>(pages: seq<Page<T>>): seq<T> {
    if pages == [] then [] else pages[0].items + Joined(pages[1..])
  }

  lemma FollowStep<T>(s: seq<T>, sizes: nat -> nat, offset: nat, k: nat)
    requires offset <= |s| && forall n :: sizes(n) > 0
    ensures var page, pages := PageOf(s, offset, sizes(k)), Follow(s, sizes, offset, k);
            && pages[0] == page && page.eof == page.next.None?
            && pages[1..] == (if page.eof then [] else Follow(s, sizes, page.next.value, k + 1))
            && (offset < |s| ==> page.items != [])
            && (!page.eof ==> offset < page.next.value < |s| && s[offset..] == page.items + s[page.next.value..])
            && (page.eof ==> s[offset..] == page.items)
  {
    var page := PageOf(s, offset, sizes(k));
    if !page.eof {
      assert s[offset..] == page.items + s[page.next.value..];
    }
  }

  /** The marks of a reading: the last page says so, and no other. */
  predicate Marked<T>(pages: seq<Page<T>>) {
    pages != [] && pages[|pages| - 1].eof && forall i :: 0 <= i < |pages| - 1 ==> !pages[i].eof
  }

  ghost predicate NoneEmpty<T>(pages: seq<Page<T>>) { forall page <- pages :: page.items != [] }

  /** The pages are those of the rest of `s` from `offset` on. */
  ghost predicate Cover<T>(pages: seq<Page<T>>, s: seq<T>, offset: nat)
    requires offset <= |s|
  {
    && Joined(pages) == s[offset..] && Marked(pages)
    && (offset < |s| ==> NoneEmpty(pages))
    && |pages| <= if offset < |s| then |s| - offset else 1
  }

  /** One page more in front. */
  lemma CoverMore<T>(page: Page<T>, rest: seq<Page<T>>, s: seq<T>, offset: nat, next: nat)
    requires offset < next < |s| && Cover(rest, s, next)
    requires !page.eof && page.items != [] && s[offset..] == page.items + s[next..]
    ensures Cover([page] + rest, s, offset)
  {
    assert ([page] + rest)[1..] == rest;
  }

  lemma CoverLast<T>(page: Page<T>, s: seq<T>, offset: nat)
    requires offset <= |s| && page.eof && page.items == s[offset..]
    ensures Cover([page], s, offset)
  {
    assert [page][1..] == [];
  }

  /** Following the offsets ends, whatever sizes are asked for; the pages put together are the rest of the
      sequence, only the last of them says so, and none but a first and only page is empty. */
  lemma {:induction false} PagesCover<T>(s: seq<T>, sizes: nat -> nat, offset: nat, k: nat)
    requires offset <= |s| && forall n :: sizes(n) > 0
    ensures Cover(Follow(s, sizes, offset, k), s, offset)
    decreases |s| - offset
  {
    FollowStep(s, sizes, offset, k);
    var pages := Follow(s, sizes, offset, k);
    var page, rest := pages[0], pages[1..];
    assert pages == [page] + rest;
    if page.eof {
      CoverLast(page, s, offset);
    } else {
      PagesCover(s, sizes, page.next.value, k + 1);
      CoverMore(page, rest, s, offset, page.next.value);
    }
  }

  // ---- How a page is sent ----

  /** Bytes in an answer: as text where they are UTF-8, and in base64 where an offset has split a character. */
  datatype Content = Text(text: string) | Base64(text: string)

  /** Strict UTF-8 and base64, with the way back. */
  datatype Codec = Codec(decode: bytes -> Option<string>, encode: string -> bytes,
                         to64: bytes -> string, from64: string -> bytes)

  ghost predicate Lossless(c: Codec) {
    && (forall b: bytes :: c.decode(b).Some? ==> c.encode(c.decode(b).value) == b)
    && (forall b: bytes :: c.from64(c.to64(b)) == b)
  }

  function Sent(c: Codec, chunk: bytes): Content {
    match c.decode(chunk)
    case Some(text) => Text(text)
    case None => Base64(c.to64(chunk))
  }

  function Received(c: Codec, content: Content): bytes {
    match content
    case Text(text) => c.encode(text)
    case Base64(text) => c.from64(text)
  }

  lemma SentIsReceived(c: Codec, chunk: bytes)
    requires Lossless(c)
    ensures Received(c, Sent(c, chunk)) == chunk
  {
  }

  /** The answer to one request: the digest of the whole diff and that of the page beside its content. */
  datatype Answer<H> = Answer(content: Content, size: nat, total: nat, sha256: H, chunkSha256: H,
                              next: Option<nat>, eof: bool)

  function AnswerOf<H>(c: Codec, hash: bytes -> H, whole: bytes, page: Page<byte>): Answer<H> {
    Answer(Sent(c, page.items), |page.items|, page.total, hash(whole), hash(page.items), page.next, page.eof)
  }

  // ---- The loop ----

  function Concat(lines: seq<bytes>): bytes {
    if lines == [] then [] else lines[0] + Concat(lines[1..])
  }

  lemma {:induction false} ConcatSnoc(lines: seq<bytes>, line: bytes)
    ensures Concat(lines + [line]) == Concat(lines) + line
  {
    if lines == [] {
      assert lines + [line] == [line] && [line][1..] == [];
    } else {
      assert (lines + [line])[1..] == lines[1..] + [line];
      ConcatSnoc(lines[1..], line);
    }
  }

  /** What of the bytes so far falls into the window. */
  function Seen(b: bytes, offset: nat, maximum: nat): bytes {
    if offset <= |b| then Window(b, offset, maximum) else []
  }

  lemma SeenSnoc(b: bytes, line: bytes, offset: nat, maximum: nat)
    ensures var start := if offset > |b| then offset - |b| else 0;
            var end := if offset + maximum - |b| < |line| then offset + maximum - |b| else |line|;
            Seen(b + line, offset, maximum) == Seen(b, offset, maximum) + if start < end then line[start..end] else []
  {
  }

  /** `_diff_page`: the whole diff is generated and hashed, and only the bytes of one page are kept. The
      hash is fed line by line; `hash` is its value for all that was fed. */
  method DiffPage<H>(lines: seq<bytes>, hash: bytes -> H, codec: Codec, offset: nat, maximum: nat)
    returns (r: Option<Answer<H>>)
    ensures r == if offset > |Concat(lines)| then None
                 else Some(AnswerOf(codec, hash, Concat(lines), PageOf(Concat(lines), offset, maximum)))
  {
    var total: nat, chunk: bytes, fed: bytes := 0, [], [];
    assert lines[..0] == [];
    for i := 0 to |lines|
      invariant fed == Concat(lines[..i]) && total == |fed| && chunk == Seen(fed, offset, maximum)
    {
      var data := lines[i];
      assert lines[..i + 1] == lines[..i] + [data];
      ConcatSnoc(lines[..i], data);
      SeenSnoc(fed, data, offset, maximum);
      var start := if offset > total then offset - total else 0;
      var end := if offset + maximum - total < |data| then offset + maximum - total else |data|;
      if start < end {
        chunk := chunk + data[start..end];
      }
      fed, total := fed + data, total + |data|;
    }
    assert lines[..|lines|] == lines;
    if offset > total {
      return None;
    }
    var text := codec.decode(chunk);
    var content := if text.Some? then Text(text.value) else Base64(codec.to64(chunk));
    var end := offset + |chunk|;
    r := Some(Answer(content, |chunk|, total, hash(fed), hash(chunk),
                     if end < total then Some(end) else None, end >= total));
  }

  /** The pages of the changed paths; `paths[offset:offset + limit]` with an offset that is too large
      refused. */
  method ListPage<T>(paths: seq<T>, offset: nat, limit: nat) returns (r: Option<Page<T>>)
    ensures r == if offset > |paths| then None else Some(PageOf(paths, offset, limit))
  {
    if offset > |paths| {
      return None;
    }
    var selected := paths[offset..if offset + limit < |paths| then offset + limit else |paths|];
    var next := offset + |selected|;
    return Some(Page(selected, |paths|, if next < |paths| then Some(next) else None, next >= |paths|));
  }

  /** A client that follows the pages of a diff, asking for what it likes and decoding each page as it is
      marked, gets the whole diff, with the digest that every page carries. */
  method ReadDiff<H>(lines: seq<bytes>, hash: bytes -> H, codec: Codec, sizes: nat -> nat)
    returns (content: bytes, digest: H, requests: nat)
    requires Lossless(codec) && forall n :: sizes(n) > 0
    ensures content == Concat(lines) && digest == hash(content)
    ensures requests <= if content == [] then 1 else |content|
  {
    ghost var whole := Concat(lines);
    var offset: nat := 0;
    content, requests := [], 0;
    while true
      invariant offset <= |whole| && content == whole[..offset] && requests <= offset
      invariant requests > 0 ==> offset < |whole|
      decreases |whole| - offset
    {
      var answer := DiffPage(lines, hash, codec, offset, sizes(requests));
      ghost var page := PageOf(whole, offset, sizes(requests));
      SentIsReceived(codec, page.items);
      content, digest, requests := content + Received(codec, answer.value.content), answer.value.sha256, requests + 1;
      assert content == whole[..offset + |page.items|];
      if answer.value.next.None? {
        break;
      }
      offset := answer.value.next.value;
    }
  }
}
