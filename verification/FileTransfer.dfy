/** Chunked file transfer between modules (pkg/vxproto/module.go): a file is cut into labelled
    parts, the parts are written at their offsets in any order, and a side file in JSON counts
    them. A byte string is a `string` here, one character a byte. */
module FileTransfer {
  import opened Basics
  import opened Texts

  const CHUNK := 102400 // MaxFilePacketChunkSize
  const TEMP_DIR := "/tmp/vx-store/"

  // ---- Sending ----

  /** The fields of a file packet that travel. */
  datatype Part = Part(data: string, uniq: string)

  function NumParts(len: nat): (n: nat)
    ensures n >= 1
  {
    if len == 0 then 1 else (len + CHUNK - 1) / CHUNK
  }

  function PartEnd(len: nat, ix: nat): nat {
    if (ix + 1) * CHUNK > len then len else (ix + 1) * CHUNK
  }

  function Label(hash: string, ix: nat, n: nat): string {
    hash + ":" + Itoa(ix + 1) + ":" + Itoa(n)
  }

  function NthPart(data: string, hash: string, ix: nat): Part
    requires ix < NumParts(|data|)
  {
    Part(data[ix * CHUNK..PartEnd(|data|, ix)], Label(hash, ix, NumParts(|data|)))
  }

  /** The read callbacks: a slice of the data in memory, or of the file as it is at that moment;
      a file that has become too short gives an empty part. */
  function ReadPart(file: string, left: nat, right: nat): string
    requires left <= right
  {
    if right <= |file| then file[left..right] else ""
  }

  function PartOf(file: string, len: nat, hash: string, ix: nat): Part
    requires ix < NumParts(len)
  {
    Part(ReadPart(file, ix * CHUNK, PartEnd(len, ix)), Label(hash, ix, NumParts(len)))
  }

  /** The parts up to the first that cannot be read or sent; all of them if there is none. `file(ix)`
      is what lies behind the callback at the ix-th read, nothing if that fails. */
  ghost predicate SentUpTo(parts: seq<Part>, ok: bool, len: nat, file: nat -> Option<string>, sends: nat -> bool,
                           hash: string) {
    && |parts| <= NumParts(len) && (ok <==> |parts| == NumParts(len))
    && (forall ix :: 0 <= ix < |parts| ==>
          file(ix).Some? && sends(ix) && parts[ix] == PartOf(file(ix).value, len, hash, ix))
    && (!ok ==> file(|parts|).None? || !sends(|parts|))
  }

  /** The loop over the parts. */
  method SendParts(dataLen: nat, file: nat -> Option<string>, sends: nat -> bool, hash: string)
    returns (parts: seq<Part>, ok: bool)
    ensures SentUpTo(parts, ok, dataLen, file, sends, hash)
  {
    var uniq := hash + ":";
    var nPackets := dataLen / CHUNK;
    if nPackets * CHUNK < dataLen || dataLen == 0 {
      nPackets := nPackets + 1;
    }
    assert nPackets == NumParts(dataLen);
    var lastN := Itoa(nPackets);
    parts := [];
    var ix := 0;
    while ix < nPackets
      invariant 0 <= ix <= nPackets && |parts| == ix
      invariant forall k :: 0 <= k < ix ==>
                  file(k).Some? && sends(k) && parts[k] == PartOf(file(k).value, dataLen, hash, k)
    {
      var left := ix * CHUNK;
      var right := (ix + 1) * CHUNK;
      if right > dataLen {
        right := dataLen;
      }
      var curN := Itoa(ix + 1);
      if file(ix).None? {
        return parts, false;
      }
      if !sends(ix) {
        return parts, false;
      }
      parts := parts + [Part(ReadPart(file(ix).value, left, right), uniq + curN + ":" + lastN)];
      ix := ix + 1;
    }
    ok := true;
  }

  /** A file is sent from memory, unless it is empty there and has a path. There may be no random
      `hash`, and nothing to open at the path; `size` is the length of the file when it is opened. */
  method SendFile(data: string, path: string, size: Option<nat>, file: nat -> Option<string>, sends: nat -> bool,
                  hash: Option<string>)
    returns (parts: seq<Part>, ok: bool)
    ensures hash.None? || (data == "" && path != "" && size.None?) ==> parts == [] && !ok
    ensures hash.Some? && (data != "" || path == "") ==>
              && SentUpTo(parts, ok, |data|, _ => Some(data), sends, hash.value)
              && forall ix :: 0 <= ix < |parts| ==> parts[ix] == NthPart(data, hash.value, ix)
    ensures hash.Some? && data == "" && path != "" && size.Some? ==>
              SentUpTo(parts, ok, size.value, file, sends, hash.value)
  {
    if hash.None? {
      return [], false;
    }
    if |data| != 0 || |path| == 0 {
      parts, ok := SendParts(|data|, _ => Some(data), sends, hash.value);
    } else if size.None? {
      return [], false;
    } else {
      parts, ok := SendParts(size.value, file, sends, hash.value);
    }
  }

  /** From a path the receiver gets a part of the file as it was when opened, `f`, if and only if
      the bytes of that part are still there when it is read from what is there `now`. */
  lemma SentFromPathIff(f: string, now: string, hash: string, ix: nat)
    requires f != "" && ix < NumParts(|f|)
    ensures var left, right := ix * CHUNK, PartEnd(|f|, ix);
            PartOf(now, |f|, hash, ix) == NthPart(f, hash, ix)
            <==> right <= |now| && forall i :: left <= i < right ==> now[i] == f[i]
  {
    var left, right := ix * CHUNK, PartEnd(|f|, ix);
    assert left < right;
    if right <= |now| {
      var part, was := now[left..right], f[left..right];
      if part == was {
        forall i | left <= i < right ensures now[i] == f[i] {
          assert part[i - left] == was[i - left];
        }
      }
    }
  }

  // ---- The side file ----

  /** encoding/json on a non-empty list of strings that need no escape. */
  function MarshalTail(chunks: seq<string>): string
    requires chunks != []
  {
    "\"" + chunks[0] + "\"" + if |chunks| == 1 then "]" else "," + MarshalTail(chunks[1..])
  }

  function Marshal(chunks: seq<string>): string {
    if chunks == [] then "[]" else "[" + MarshalTail(chunks)
  }

  /** Reads back a JSON list of strings without escapes; anything after the list is an error. */
  function UnmarshalTail(s: string): Option<seq<string>>
    decreases |s|
  {
    if s == [] || s[0] != '"' then None
    else
      var q := IndexOf(s[1..], '"');
      if q == |s| - 1 then None
      else
        var item, rest := s[1..][..q], s[1..][q + 1..];
        if rest == "]" then Some([item])
        else if rest != [] && rest[0] == ',' then
          match UnmarshalTail(rest[1..])
          case None => None
          case Some(more) => Some([item] + more)
        else None
  }

  function Unmarshal(s: string): Option<seq<string>> {
    if s == "[]" then Some([])
    else if s != [] && s[0] == '[' then UnmarshalTail(s[1..])
    else None
  }

  ghost predicate Plain(chunks: seq<string>) {
    forall c :: c in chunks ==> '"' !in c
  }

  lemma QuotedItem(item: string, after: string)
    requires '"' !in item
    ensures var s := "\"" + item + "\"" + after;
            && |s| == |item| + 2 + |after| && s[0] == '"' && IndexOf(s[1..], '"') == |item|
            && s[1..][..|item|] == item && s[1..][|item| + 1..] == after
  {
    var s := "\"" + item + "\"" + after;
    assert s[1..] == item + ['"'] + after;
    IndexOfFirst(item, '"', after);
  }

  lemma UnmarshalMore(chunk: string, rest: seq<string>)
    requires '"' !in chunk && rest != [] && UnmarshalTail(MarshalTail(rest)) == Some(rest)
    ensures UnmarshalTail(MarshalTail([chunk] + rest)) == Some([chunk] + rest)
  {
    var tail := MarshalTail(rest);
    var after := "," + tail;
    assert ([chunk] + rest)[1..] == rest;
    assert MarshalTail([chunk] + rest) == "\"" + chunk + "\"" + after;
    QuotedItem(chunk, after);
    assert after[0] == ',' && after[1..] == tail;
  }

  lemma UnmarshalLast(chunk: string)
    requires '"' !in chunk
    ensures UnmarshalTail(MarshalTail([chunk])) == Some([chunk])
  {
    QuotedItem(chunk, "]");
  }

  lemma {:induction false} UnmarshalMarshalTail(chunks: seq<string>)
    requires chunks != [] && Plain(chunks)
    ensures UnmarshalTail(MarshalTail(chunks)) == Some(chunks)
    decreases |chunks|
  {
    assert chunks == [chunks[0]] + chunks[1..];
    if |chunks| == 1 {
      assert chunks == [chunks[0]];
      UnmarshalLast(chunks[0]);
    } else {
      UnmarshalMarshalTail(chunks[1..]);
      UnmarshalMore(chunks[0], chunks[1..]);
    }
  }

  lemma UnmarshalMarshal(chunks: seq<string>)
    requires Plain(chunks)
    ensures Unmarshal(Marshal(chunks)) == Some(chunks)
  {
    if chunks != [] {
      UnmarshalMarshalTail(chunks);
      assert Marshal(chunks)[1..] == MarshalTail(chunks);
      assert Marshal(chunks)[1] == '"';
    }
  }

  /** Each list is written as a strictly longer text than the list before it. */
  lemma {:induction false} MarshalGrowsTail(chunks: seq<string>, c: string)
    requires chunks != []
    ensures |MarshalTail(chunks)| < |MarshalTail(chunks + [c])|
    decreases |chunks|
  {
    assert (chunks + [c])[1..] == chunks[1..] + [c];
    if |chunks| > 1 {
      MarshalGrowsTail(chunks[1..], c);
    }
  }

  lemma MarshalGrows(chunks: seq<string>, c: string)
    ensures |Marshal(chunks)| < |Marshal(chunks + [c])|
  {
    if chunks != [] {
      MarshalGrowsTail(chunks, c);
    }
  }

  // ---- Receiving ----

  /** os.File.WriteAt: the file grows as needed, a gap reads as zeros, nothing is truncated. */
  function WriteAt(f: string, data: string, offset: nat): (r: string)
    ensures data == [] ==> r == f
    ensures data != [] ==> |r| == if |f| > offset + |data| then |f| else offset + |data|
  {
    if data == [] then f
    else
      var len := if |f| > offset + |data| then |f| else offset + |data|;
      seq(len, i requires 0 <= i < len =>
            if offset <= i < offset + |data| then data[i - offset] else if i < |f| then f[i] else '\0')
  }

  function MetaName(hash: string): string {
    hash + ".meta"
  }

  type Files = map<string, string>

  /** Opening with O_CREATE. */
  function Opened(files: Files, name: string): Files {
    if name in files then files else files[name := ""]
  }

  /** The new contents and the verdict; no verdict is an error. */
  function UpdateMeta(files: Files, meta: string, chunk: string, total: string): (Files, Option<bool>) {
    var files' := Opened(files, meta);
    var chunks := if files'[meta] == [] then Some([]) else Unmarshal(files'[meta]);
    if chunks.None? then (files', None)
    else
      var chunks' := chunks.value + [chunk];
      var files'' := files'[meta := WriteAt(files'[meta], Marshal(chunks'), 0)];
      match Atoi(total)
      case None => (files'', None)
      case Some(n) => if |chunks'| == n then (files'' - {meta}, Some(true)) else (files'', Some(false))
  }

  /** The file packet as receivers see and change it. */
  datatype FileView = FileView(data: Option<string>, path: string, uniq: string)

  /** A 64-bit product. */
  function WrapInt(x: int): int {
    (x + MAX_INT + 1) % (2 * (MAX_INT + 1)) - MAX_INT - 1
  }

  function Contents(f: FileView): string {
    if f.data.Some? then f.data.value else ""
  }

  /** A labelled part: its bytes go to the file of its hash, then the side file is updated. */
  function ReceivePart(files: Files, f: FileView, hash: string, cur: string, total: string):
      (Files, FileView, Option<bool>)
  {
    var files' := Opened(files, hash);
    match Atoi(cur)
    case None => (files', f, None)
    case Some(n) =>
      var offset := WrapInt((n - 1) * CHUNK);
      if offset < 0 then (files', f, None)
      else
        var stored := files'[hash := WriteAt(files'[hash], Contents(f), offset)];
        var (files'', verdict) := UpdateMeta(stored, MetaName(hash), cur, total);
        (files'', FileView(None, TEMP_DIR + hash, hash), verdict)
  }

  function Receive(files: Files, f: FileView): (Files, FileView, Option<bool>) {
    var parts := Split(f.uniq, ':');
    if f.uniq == "" then (files, f.(path := ""), Some(true))
    else if f.data.None? && f.path != "" && |parts| == 1 then (files, f, Some(true))
    else if |parts| != 3 then (files, f, None)
    else ReceivePart(files, f, parts[0], parts[1], parts[2])
  }

  // ---- Streams of parts, in any order and interleaved with each other ----

  datatype Stream = Stream(hash: string, data: string)

  /** Part `ix` of stream `k` arrives. */
  datatype Arrival = Arrival(k: nat, ix: nat)

  predicate IsHash(h: string) {
    |h| == 32 && forall c <- h :: IsDigit(c) || 'a' <= c <= 'f'
  }

  /** Streams have random hashes, pairwise different. */
  ghost predicate ProperStreams(streams: seq<Stream>) {
    && (forall k :: 0 <= k < |streams| ==> IsHash(streams[k].hash) && |streams[k].data| <= MAX_INT - CHUNK)
    && (forall k, l :: 0 <= k < l < |streams| ==> streams[k].hash != streams[l].hash)
  }

  ghost predicate ProperArrivals(streams: seq<Stream>, arrivals: seq<Arrival>) {
    forall a :: a in arrivals ==> a.k < |streams| && a.ix < NumParts(|streams[a.k].data|)
  }

  /** Parts of stream k among the arrivals, in order of arrival. */
  function Arrived(arrivals: seq<Arrival>, k: nat): (xs: seq<nat>)
    ensures |xs| <= |arrivals|
  {
    if arrivals == [] then []
    else
      var n := |arrivals| - 1;
      Arrived(arrivals[..n], k) + if arrivals[n].k == k then [arrivals[n].ix] else []
  }

  function Deliver(files: Files, stream: Stream, ix: nat): (Files, FileView, Option<bool>)
    requires ix < NumParts(|stream.data|)
  {
    var part := NthPart(stream.data, stream.hash, ix);
    Receive(files, FileView(Some(part.data), "", part.uniq))
  }

  ghost function DeliverAll(streams: seq<Stream>, arrivals: seq<Arrival>): Files
    requires ProperArrivals(streams, arrivals)
    decreases |arrivals|
  {
    if arrivals == [] then map[]
    else
      var n := |arrivals| - 1;
      assert arrivals[n] in arrivals;
      Deliver(DeliverAll(streams, arrivals[..n]), streams[arrivals[n].k], arrivals[n].ix).0
  }

  function Chunks(xs: seq<nat>): (cs: seq<string>)
    ensures |cs| == |xs|
  {
    seq(|xs|, i requires 0 <= i < |xs| => Itoa(xs[i] + 1))
  }

  /** The file holds the stream's bytes wherever an arrived part lies. */
  ghost predicate Partial(f: string, data: string, xs: seq<nat>) {
    && |f| <= |data|
    && (forall x :: x in xs ==> PartEnd(|data|, x) <= |f|)
    && (forall i :: 0 <= i < |f| && i / CHUNK in xs ==> f[i] == data[i])
  }

  /** The rest of m divided by n, counted up. */
  function Rest(m: nat, n: nat): (r: nat)
    requires n > 0
    ensures r < n && r <= m
  {
    if m == 0 then 0
    else
      var r := Rest(m - 1, n) + 1;
      if r == n then 0 else r
  }

  lemma {:induction false} RestIs(m: nat, n: nat) returns (q: nat)
    requires n > 0
    ensures m == q * n + Rest(m, n) && Rest(m, n) == m % n
  {
    if m == 0 {
      q := 0;
    } else {
      q := RestIs(m - 1, n);
      if Rest(m - 1, n) + 1 == n {
        assert q * n + n == (q + 1) * n;
        q := q + 1;
      }
      QuotientRest(m, n, q, Rest(m, n));
    }
  }

  lemma QuotientRest(m: nat, n: nat, q: nat, r: nat)
    requires r < n && m == q * n + r
    ensures m % n == r
  {
    var p := m / n;
    assert m == p * n + m % n;
    if p < q {
      MulMono(p + 1, q, n);
    } else if p > q {
      MulMono(q + 1, p, n);
    }
  }

  lemma {:induction false} RestBelow(m: nat, n: nat)
    requires m <= n && n > 0
    ensures Rest(m, n) == if m == n then 0 else m
  {
    if m > 0 {
      RestBelow(m - 1, n);
    }
  }

  /** The arrivals counted in the side file: those since it was last removed. */
  function Counted(xs: seq<nat>, n: nat): (ys: seq<nat>)
    requires n > 0
    ensures |ys| == Rest(|xs|, n)
  {
    xs[|xs| - Rest(|xs|, n)..]
  }

  lemma CountedNext(xs: seq<nat>, n: nat, x: nat)
    requires n > 0
    ensures Counted(xs + [x], n) == CountOn(Counted(xs, n), x, n)
  {
  }

  /** What the directory holds for a stream of which the parts xs have arrived, some of them
      perhaps more than once; ys are the arrivals that the side file counts. */
  ghost predicate Holds(files: Files, stream: Stream, xs: seq<nat>, ys: seq<nat>) {
    && |ys| < NumParts(|stream.data|)
    && (xs == [] ==> stream.hash !in files)
    && (xs != [] ==> stream.hash in files && Partial(files[stream.hash], stream.data, xs))
    && (ys != [] ==> MetaName(stream.hash) in files && files[MetaName(stream.hash)] == Marshal(Chunks(ys)))
    && (ys == [] ==> MetaName(stream.hash) !in files)
  }

  ghost predicate Stored(files: Files, stream: Stream, xs: seq<nat>) {
    Holds(files, stream, xs, Counted(xs, NumParts(|stream.data|)))
  }

  /** The arrivals that the side file counts after one more. */
  function CountOn(ys: seq<nat>, ix: nat, n: nat): seq<nat> {
    if |ys| + 1 == n then [] else ys + [ix]
  }

  lemma HashNames(h: string, g: string)
    requires IsHash(h) && IsHash(g)
    ensures ':' !in h && h != MetaName(g) && (h != g ==> MetaName(h) != MetaName(g))
  {
    assert |MetaName(g)| > |h|;
    assert MetaName(h)[..32] == h && MetaName(g)[..32] == g;
  }

  lemma LabelSplit(hash: string, ix: nat, n: nat)
    requires ':' !in hash
    ensures Split(Label(hash, ix, n), ':') == [hash, Itoa(ix + 1), Itoa(n)]
  {
    var cur, total := Itoa(ix + 1), Itoa(n);
    assert Label(hash, ix, n) == hash + [':'] + (cur + [':'] + total);
    assert forall c :: c in cur || c in total ==> IsDigit(c);
    SplitFirst(hash, ':', cur + [':'] + total);
    SplitFirst(cur, ':', total);
    SplitNone(total, ':');
  }

  lemma WriteKeepsPartial(f: string, data: string, xs: seq<nat>, ix: nat)
    requires Partial(f, data, xs) && ix < NumParts(|data|)
    ensures Partial(WriteAt(f, data[ix * CHUNK..PartEnd(|data|, ix)], ix * CHUNK), data, xs + [ix])
  {
  }

  lemma RewrittenWhole(was: string, text: string)
    requires |was| < |text|
    ensures WriteAt(was, text, 0) == text
  {
  }

  lemma MetaRead(was: string, chunks: seq<string>, chunk: string)
    requires Plain(chunks) && was == if chunks == [] then "" else Marshal(chunks)
    ensures (if was == [] then Some([]) else Unmarshal(was)) == Some(chunks)
    ensures WriteAt(was, Marshal(chunks + [chunk]), 0) == Marshal(chunks + [chunk])
  {
    UnmarshalMarshal(chunks);
    MarshalGrows(chunks, chunk);
    assert chunks != [] ==> Marshal(chunks)[0] == '[';
    RewrittenWhole(was, Marshal(chunks + [chunk]));
  }

  lemma OpenedReplaced(files: Files, name: string, text: string)
    ensures Opened(files, name)[name := text] == files[name := text]
    ensures Opened(files, name)[name := text] - {name} == files - {name}
  {
  }

  /** The side file is rewritten whole, with no stale bytes. */
  lemma MetaRewritten(files: Files, meta: string, chunks: seq<string>, chunk: string, total: string, n: nat)
    requires Plain(chunks) && Atoi(total) == Some(n)
    requires if chunks == [] then meta !in files else meta in files && files[meta] == Marshal(chunks)
    ensures UpdateMeta(files, meta, chunk, total) ==
            if |chunks| + 1 == n then (files - {meta}, Some(true))
            else (files[meta := Marshal(chunks + [chunk])], Some(false))
  {
    MetaRead(Opened(files, meta)[meta], chunks, chunk);
    OpenedReplaced(files, meta, Marshal(chunks + [chunk]));
  }

  lemma ChunksPlain(xs: seq<nat>)
    ensures Plain(Chunks(xs))
  {
    forall c | c in Chunks(xs) ensures '"' !in c {
      var i :| 0 <= i < |xs| && Chunks(xs)[i] == c;
      assert forall d :: d in Itoa(xs[i] + 1) ==> IsDigit(d);
    }
  }

  /** The label is undone. */
  lemma LabelReceived(files: Files, hash: string, data: string, ix: nat, n: nat)
    requires ':' !in hash
    ensures var f := FileView(Some(data), "", Label(hash, ix, n));
            Receive(files, f) == ReceivePart(files, f, hash, Itoa(ix + 1), Itoa(n))
  {
    LabelSplit(hash, ix, n);
    assert |Label(hash, ix, n)| > 0;
  }

  /** The part lands at its offset. */
  lemma PartReceived(files: Files, f: FileView, hash: string, ix: nat, total: string)
    requires (ix + 1) * CHUNK <= MAX_INT
    ensures var was := if hash in files then files[hash] else "";
            var (files', verdict) := UpdateMeta(files[hash := WriteAt(was, Contents(f), ix * CHUNK)],
                                                MetaName(hash), Itoa(ix + 1), total);
            ReceivePart(files, f, hash, Itoa(ix + 1), total)
            == (files', FileView(None, TEMP_DIR + hash, hash), verdict)
  {
    AtoiItoa(ix + 1);
    WrapSmall(ix * CHUNK);
    OpenedReplaced(files, hash, WriteAt(Opened(files, hash)[hash], Contents(f), ix * CHUNK));
  }

  lemma WrapSmall(x: nat)
    requires x <= MAX_INT
    ensures WrapInt(x) == x
  {
  }

  lemma StoredAfter(files: Files, stream: Stream, xs: seq<nat>, ys: seq<nat>, ix: nat, f: string, files': Files)
    requires IsHash(stream.hash) && ix < NumParts(|stream.data|) && Partial(f, stream.data, xs + [ix])
    requires |ys| < NumParts(|stream.data|)
    requires files' == if |ys| + 1 == NumParts(|stream.data|) then files[stream.hash := f] - {MetaName(stream.hash)}
                       else files[stream.hash := f][MetaName(stream.hash) := Marshal(Chunks(ys + [ix]))]
    ensures Holds(files', stream, xs + [ix], CountOn(ys, ix, NumParts(|stream.data|)))
  {
    HashNames(stream.hash, stream.hash);
  }

  lemma CountUpdated(files: Files, hash: string, xs: seq<nat>, ix: nat, n: nat)
    requires |xs| < n <= MAX_INT
    requires if xs == [] then MetaName(hash) !in files
             else MetaName(hash) in files && files[MetaName(hash)] == Marshal(Chunks(xs))
    ensures UpdateMeta(files, MetaName(hash), Itoa(ix + 1), Itoa(n)) ==
            if |xs| + 1 == n then (files - {MetaName(hash)}, Some(true))
            else (files[MetaName(hash) := Marshal(Chunks(xs + [ix]))], Some(false))
  {
    AtoiItoa(n);
    ChunksPlain(xs);
    assert Chunks(xs + [ix]) == Chunks(xs) + [Itoa(ix + 1)];
    MetaRewritten(files, MetaName(hash), Chunks(xs), Itoa(ix + 1), Itoa(n), n);
  }

  /** All of one delivery: label undone, bytes stored, side file counted or removed. */
  lemma DeliverIs(files: Files, stream: Stream, xs: seq<nat>, ys: seq<nat>, ix: nat)
    requires IsHash(stream.hash) && |stream.data| <= MAX_INT - CHUNK && ix < NumParts(|stream.data|)
    requires Holds(files, stream, xs, ys)
    ensures var hash, n := stream.hash, NumParts(|stream.data|);
            var was := if hash in files then files[hash] else "";
            var stored := files[hash := WriteAt(was, NthPart(stream.data, hash, ix).data, ix * CHUNK)];
            Deliver(files, stream, ix) ==
            (if |ys| + 1 == n then stored - {MetaName(hash)} else stored[MetaName(hash) := Marshal(Chunks(ys + [ix]))],
             FileView(None, TEMP_DIR + hash, hash), Some(|ys| + 1 == n))
  {
    var hash, n := stream.hash, NumParts(|stream.data|);
    var part := NthPart(stream.data, hash, ix);
    var was := if hash in files then files[hash] else "";
    var stored := files[hash := WriteAt(was, part.data, ix * CHUNK)];
    HashNames(hash, hash);
    CountUpdated(stored, hash, ys, ix, n);
    LabelReceived(files, hash, part.data, ix, n);
    PartReceived(files, FileView(Some(part.data), "", part.uniq), hash, ix, Itoa(n));
  }

  /** One part: a part that brings the count to the total, and no other, is reported as
      completing the file, and no other name of the directory is touched. */
  lemma DeliverStores(files: Files, stream: Stream, xs: seq<nat>, ys: seq<nat>, ix: nat)
    requires IsHash(stream.hash) && |stream.data| <= MAX_INT - CHUNK && ix < NumParts(|stream.data|)
    requires Holds(files, stream, xs, ys)
    ensures var (files', f, verdict) := Deliver(files, stream, ix);
            && Holds(files', stream, xs + [ix], CountOn(ys, ix, NumParts(|stream.data|)))
            && verdict == Some(|ys| + 1 == NumParts(|stream.data|))
            && (forall name :: name != stream.hash && name != MetaName(stream.hash) ==>
                  (name in files' <==> name in files) && (name in files ==> files'[name] == files[name]))
  {
    DeliverIs(files, stream, xs, ys, ix);
    var was := if stream.hash in files then files[stream.hash] else "";
    WriteKeepsPartial(was, stream.data, xs, ix);
    var f := WriteAt(was, NthPart(stream.data, stream.hash, ix).data, ix * CHUNK);
    StoredAfter(files, stream, xs, ys, ix, f, Deliver(files, stream, ix).0);
  }

  /** Another stream's files are not among those a delivery touches. */
  lemma OtherStreamStored(files: Files, files': Files, stream: Stream, other: Stream, xs: seq<nat>, ys: seq<nat>)
    requires IsHash(stream.hash) && IsHash(other.hash) && stream.hash != other.hash
    requires Holds(files, other, xs, ys)
    requires forall name :: name != stream.hash && name != MetaName(stream.hash) ==>
               (name in files' <==> name in files) && (name in files ==> files'[name] == files[name])
    ensures Holds(files', other, xs, ys)
  {
    HashNames(stream.hash, other.hash);
    HashNames(other.hash, stream.hash);
  }

  /** One delivery, seen by the stream it belongs to. */
  lemma OwnStored(files: Files, stream: Stream, xs: seq<nat>, ix: nat)
    requires IsHash(stream.hash) && |stream.data| <= MAX_INT - CHUNK && ix < NumParts(|stream.data|)
    requires Stored(files, stream, xs)
    ensures Stored(Deliver(files, stream, ix).0, stream, xs + [ix])
    ensures Deliver(files, stream, ix).2 == Some(Rest(|xs| + 1, NumParts(|stream.data|)) == 0)
  {
    var n := NumParts(|stream.data|);
    DeliverStores(files, stream, xs, Counted(xs, n), ix);
    CountedNext(xs, n, ix);
  }

  /** One delivery, seen by another stream. */
  lemma OtherStored(files: Files, stream: Stream, ys: seq<nat>, ix: nat, other: Stream, xs: seq<nat>)
    requires IsHash(stream.hash) && IsHash(other.hash) && stream.hash != other.hash
    requires |stream.data| <= MAX_INT - CHUNK && ix < NumParts(|stream.data|)
    requires Stored(files, stream, ys) && Stored(files, other, xs)
    ensures Stored(Deliver(files, stream, ix).0, other, xs)
  {
    DeliverStores(files, stream, ys, Counted(ys, NumParts(|stream.data|)), ix);
    OtherStreamStored(files, Deliver(files, stream, ix).0, stream, other, xs, Counted(xs, NumParts(|other.data|)));
  }

  /** After any arrivals, in any order and with any repetitions, the directory holds for every
      stream exactly what its own arrivals account for. */
  lemma {:induction false} EveryStreamStored(streams: seq<Stream>, arrivals: seq<Arrival>, k: nat)
    requires ProperStreams(streams) && ProperArrivals(streams, arrivals) && k < |streams|
    ensures Stored(DeliverAll(streams, arrivals), streams[k], Arrived(arrivals, k))
    decreases |arrivals|
  {
    if arrivals != [] {
      var n := |arrivals| - 1;
      var before, a := arrivals[..n], arrivals[n];
      assert a in arrivals && forall b :: b in before ==> b in arrivals;
      assert forall l: nat :: Arrived(arrivals, l) == Arrived(before, l) + if a.k == l then [a.ix] else [];
      EveryStreamStored(streams, before, k);
      EveryStreamStored(streams, before, a.k);
      if a.k == k {
        OwnStored(DeliverAll(streams, before), streams[k], Arrived(before, k), a.ix);
      } else {
        OtherStored(DeliverAll(streams, before), streams[a.k], Arrived(before, a.k), a.ix,
                    streams[k], Arrived(before, k));
        assert Arrived(before, k) + [] == Arrived(before, k);
      }
    }
  }

  lemma {:induction false} DistinctBelowCoverAll(xs: seq<nat>, n: nat)
    requires |xs| == n && NoDuplicates(xs) && forall x :: x in xs ==> x < n
    ensures forall i: nat :: i < n ==> i in xs
  {
    if n > 0 {
      if n - 1 in xs {
        var j :| 0 <= j < n && xs[j] == n - 1;
        RemoveAtDistinct(xs, j);
        DistinctBelowCoverAll(RemoveAt(xs, j), n - 1);
      } else {
        RemoveAtDistinct(xs, 0);
        assert xs[0] in xs && xs[0] < n - 1;
        DistinctBelowCoverAll(RemoveAt(xs, 0), n - 1);
        assert false;
      }
    }
  }

  lemma {:induction false} ArrivedDistinct(arrivals: seq<Arrival>, k: nat)
    requires NoDuplicates(arrivals)
    ensures NoDuplicates(Arrived(arrivals, k))
    ensures forall x :: x in Arrived(arrivals, k) <==> Arrival(k, x) in arrivals
    decreases |arrivals|
  {
    if arrivals != [] {
      var n := |arrivals| - 1;
      ArrivedDistinct(arrivals[..n], k);
      assert arrivals == arrivals[..n] + [arrivals[n]];
    }
  }

  /** Each part delivered at most once: a stream never gets more parts than it has. */
  lemma ArrivedAtMost(streams: seq<Stream>, arrivals: seq<Arrival>, k: nat)
    requires ProperArrivals(streams, arrivals) && NoDuplicates(arrivals) && k < |streams|
    ensures |Arrived(arrivals, k)| <= NumParts(|streams[k].data|)
  {
    ArrivedDistinct(arrivals, k);
    var xs, n := Arrived(arrivals, k), NumParts(|streams[k].data|);
    assert forall x :: x in xs ==> x < n by {
      forall x | x in xs ensures x < n { assert Arrival(k, x) in arrivals; }
    }
    if |xs| > n {
      assert forall x :: x in xs[..n] ==> x in xs;
      assert xs[n] in xs && xs[n] !in xs[..n];
      DistinctBelowCoverAll(xs[..n], n);
      assert false;
    }
  }

  /** Every part of the stream is among the arrivals. */
  ghost predicate AllPartsIn(streams: seq<Stream>, arrivals: seq<Arrival>, k: nat)
    requires k < |streams|
  {
    forall ix :: 0 <= ix < NumParts(|streams[k].data|) ==> Arrival(k, ix) in arrivals
  }

  lemma {:induction false} ArrivedIn(arrivals: seq<Arrival>, k: nat)
    ensures forall x :: x in Arrived(arrivals, k) <==> Arrival(k, x) in arrivals
    decreases |arrivals|
  {
    if arrivals != [] {
      var n := |arrivals| - 1;
      ArrivedIn(arrivals[..n], k);
      assert arrivals == arrivals[..n] + [arrivals[n]];
    }
  }

  lemma OneMoreArrived(streams: seq<Stream>, arrivals: seq<Arrival>, a: Arrival)
    requires ProperArrivals(streams, arrivals + [a])
    ensures a in arrivals + [a] && ProperArrivals(streams, arrivals)
    ensures Arrived(arrivals + [a], a.k) == Arrived(arrivals, a.k) + [a.ix]
  {
    var all := arrivals + [a];
    assert a in all && all[..|all| - 1] == arrivals;
    assert forall b :: b in arrivals ==> b in all;
  }

  lemma ReportedAt(streams: seq<Stream>, arrivals: seq<Arrival>, a: Arrival)
    requires ProperStreams(streams) && ProperArrivals(streams, arrivals) && ProperArrivals(streams, arrivals + [a])
    requires a in arrivals + [a]
    requires |Arrived(arrivals + [a], a.k)| == |Arrived(arrivals, a.k)| + 1
    ensures Deliver(DeliverAll(streams, arrivals), streams[a.k], a.ix).2
            == Some(Rest(|Arrived(arrivals + [a], a.k)|, NumParts(|streams[a.k].data|)) == 0)
  {
    EveryStreamStored(streams, arrivals, a.k);
    OwnStored(DeliverAll(streams, arrivals), streams[a.k], Arrived(arrivals, a.k), a.ix);
  }

  /** Whatever arrives, in any order, interleaving and repetition: the arrivals reported as
      completing a file are every N-th of its stream, N the number of its parts. */
  lemma ReportedEveryNth(streams: seq<Stream>, arrivals: seq<Arrival>, a: Arrival)
    requires ProperStreams(streams) && ProperArrivals(streams, arrivals + [a])
    ensures a in arrivals + [a] && ProperArrivals(streams, arrivals)
    ensures Deliver(DeliverAll(streams, arrivals), streams[a.k], a.ix).2
            == Some(|Arrived(arrivals + [a], a.k)| % NumParts(|streams[a.k].data|) == 0)
  {
    OneMoreArrived(streams, arrivals, a);
    ReportedAt(streams, arrivals, a);
    var _ := RestIs(|Arrived(arrivals + [a], a.k)|, NumParts(|streams[a.k].data|));
  }

  /** When as many parts of a stream have arrived as it has, all of them are there if and only if
      no part arrived twice. */
  lemma AllThereIff(streams: seq<Stream>, arrivals: seq<Arrival>, k: nat)
    requires ProperArrivals(streams, arrivals) && k < |streams|
    requires |Arrived(arrivals, k)| == NumParts(|streams[k].data|)
    ensures AllPartsIn(streams, arrivals, k) <==> NoDuplicates(Arrived(arrivals, k))
  {
    var xs, n := Arrived(arrivals, k), NumParts(|streams[k].data|);
    ArrivedIn(arrivals, k);
    if NoDuplicates(xs) {
      assert forall x :: x in xs ==> x < n by {
        forall x | x in xs ensures x < n { assert Arrival(k, x) in arrivals; }
      }
      DistinctBelowCoverAll(xs, n);
    } else if AllPartsIn(streams, arrivals, k) {
      CoveredIsDistinct(xs, n);
    }
  }

  /** n numbers that cover 0 to n - 1 are pairwise different. */
  lemma CoveredIsDistinct(xs: seq<nat>, n: nat)
    requires |xs| == n && forall i: nat :: i < n ==> i in xs
    ensures NoDuplicates(xs)
  {
    if i, j :| 0 <= i < j < n && xs[i] == xs[j] {
      var rest := RemoveAt(xs, j);
      forall x: nat | x < n ensures x in rest {
        assert x in xs;
        var m :| 0 <= m < n && xs[m] == x;
        assert rest[if m == j then i else if m < j then m else m - 1] == x;
      }
      CoveredNeedsAll(rest, n);
    }
  }

  /** The first report for a stream comes with its N-th arrival, and it is right, in that all
      parts are there, if and only if no part arrived twice. */
  lemma FirstReportRightIff(streams: seq<Stream>, arrivals: seq<Arrival>, a: Arrival)
    requires ProperStreams(streams) && ProperArrivals(streams, arrivals + [a]) && a in arrivals + [a]
    requires |Arrived(arrivals + [a], a.k)| == NumParts(|streams[a.k].data|)
    ensures ProperArrivals(streams, arrivals)
    ensures Deliver(DeliverAll(streams, arrivals), streams[a.k], a.ix).2 == Some(true)
    ensures AllPartsIn(streams, arrivals + [a], a.k) <==> NoDuplicates(Arrived(arrivals + [a], a.k))
  {
    OneMoreArrived(streams, arrivals, a);
    ReportedAt(streams, arrivals, a);
    RestBelow(NumParts(|streams[a.k].data|), NumParts(|streams[a.k].data|));
    AllThereIff(streams, arrivals + [a], a.k);
  }

  /** In any order and any interleaving, each part delivered once: the part on which a receiver
      is told that the file is complete is the last of its stream to arrive, and no other. */
  lemma CompleteOnLastArrival(streams: seq<Stream>, arrivals: seq<Arrival>, a: Arrival)
    requires ProperStreams(streams) && ProperArrivals(streams, arrivals + [a]) && NoDuplicates(arrivals + [a])
    ensures a in arrivals + [a] && ProperArrivals(streams, arrivals)
    ensures Deliver(DeliverAll(streams, arrivals), streams[a.k], a.ix).2
            == Some(AllPartsIn(streams, arrivals + [a], a.k))
  {
    var all := arrivals + [a];
    OneMoreArrived(streams, arrivals, a);
    ReportedAt(streams, arrivals, a);
    ArrivedAtMost(streams, all, a.k);
    RestBelow(|Arrived(all, a.k)|, NumParts(|streams[a.k].data|));
    AllThereOnce(streams, all, a.k);
  }

  /** With each part delivered once, all parts are there exactly when their number is. */
  lemma AllThereOnce(streams: seq<Stream>, arrivals: seq<Arrival>, k: nat)
    requires ProperArrivals(streams, arrivals) && NoDuplicates(arrivals) && k < |streams|
    ensures AllPartsIn(streams, arrivals, k) <==> |Arrived(arrivals, k)| == NumParts(|streams[k].data|)
  {
    var n, xs := NumParts(|streams[k].data|), Arrived(arrivals, k);
    ArrivedAtMost(streams, arrivals, k);
    ArrivedDistinct(arrivals, k);
    if |xs| == n {
      AllThereIff(streams, arrivals, k);
    } else if AllPartsIn(streams, arrivals, k) {
      CoveredNeedsAll(xs, n);
    }
  }

  lemma {:induction false} CoveredNeedsAll(xs: seq<nat>, n: nat)
    requires forall i: nat :: i < n ==> i in xs
    ensures n <= |xs|
  {
    if n > 0 {
      assert n - 1 in xs;
      var j :| 0 <= j < |xs| && xs[j] == n - 1;
      var rest := RemoveAt(xs, j);
      forall i: nat | i < n - 1 ensures i in rest {
        assert i in xs;
        var m :| 0 <= m < |xs| && xs[m] == i;
        assert rest[if m < j then m else m - 1] == i;
      }
      CoveredNeedsAll(rest, n - 1);
    }
  }

  /** Once all parts of a stream have arrived, in any order and even repeatedly, its file is the
      original; the side file is gone if and only if N divides the number of arrivals. */
  lemma FileReassembled(streams: seq<Stream>, arrivals: seq<Arrival>, k: nat)
    requires ProperStreams(streams) && ProperArrivals(streams, arrivals) && k < |streams|
    requires AllPartsIn(streams, arrivals, k)
    ensures var files := DeliverAll(streams, arrivals);
            && streams[k].hash in files && files[streams[k].hash] == streams[k].data
            && (MetaName(streams[k].hash) !in files
                <==> |Arrived(arrivals, k)| % NumParts(|streams[k].data|) == 0)
  {
    EveryStreamStored(streams, arrivals, k);
    ArrivedIn(arrivals, k);
    var xs, data := Arrived(arrivals, k), streams[k].data;
    var _ := RestIs(|xs|, NumParts(|data|));
    forall ix: nat | ix < NumParts(|data|) ensures ix in xs {
      assert Arrival(k, ix) in arrivals;
    }
    assert 0 in xs;
    PartialWhole(DeliverAll(streams, arrivals)[streams[k].hash], data, xs);
  }

  lemma PartialWhole(f: string, data: string, xs: seq<nat>)
    requires Partial(f, data, xs) && forall ix: nat :: ix < NumParts(|data|) ==> ix in xs
    ensures f == data
  {
    var last := NumParts(|data|) - 1;
    assert last in xs && PartEnd(|data|, last) == |data|;
    forall i | 0 <= i < |f| ensures f[i] == data[i] {
      assert i / CHUNK in xs;
    }
  }

  // ---- What the conditions are for ----

  lemma FirstOfTwo(files: Files, stream: Stream, xs: seq<nat>, ys: seq<nat>)
    requires IsHash(stream.hash) && |stream.data| == CHUNK + 1
    requires Holds(files, stream, xs, ys) && (stream.hash in files ==> |files[stream.hash]| <= CHUNK)
    ensures var files' := Deliver(files, stream, 0).0;
            && Holds(files', stream, xs + [0], CountOn(ys, 0, 2))
            && stream.hash in files' && |files'[stream.hash]| == CHUNK
    ensures Deliver(files, stream, 0).2 == Some(|ys| == 1)
  {
    DeliverIs(files, stream, xs, ys, 0);
    DeliverStores(files, stream, xs, ys, 0);
    HashNames(stream.hash, stream.hash);
  }

  /** Parts are counted, not told apart: when one part of two arrives twice, the second arrival is
      reported as completing a file that lacks its other half. */
  lemma DuplicateCompletesTooEarly(stream: Stream)
    requires IsHash(stream.hash) && |stream.data| == CHUNK + 1
    ensures var once := Deliver(map[], stream, 0).0;
            var (twice, _, verdict) := Deliver(once, stream, 0);
            verdict == Some(true) && stream.hash in twice && twice[stream.hash] != stream.data
  {
    FirstOfTwo(map[], stream, [], []);
    FirstOfTwo(Deliver(map[], stream, 0).0, stream, [] + [0], [] + [0]);
  }

  /** A part handed to a second subscriber of a topic arrives as the first one left it, and the
      second subscriber always takes it for a complete file: rightly so exactly when the first
      subscriber was told the same. */
  lemma SecondSubscriber(files: Files, stream: Stream, xs: seq<nat>, ix: nat)
    requires IsHash(stream.hash) && |stream.data| <= MAX_INT - CHUNK && ix < NumParts(|stream.data|)
    requires Stored(files, stream, xs)
    ensures var (files', f, verdict) := Deliver(files, stream, ix);
            && Receive(files', f) == (files', f, Some(true))
            && (verdict == Some(true) <==> Rest(|xs| + 1, NumParts(|stream.data|)) == 0)
  {
    OwnStored(files, stream, xs, ix);
    DeliverIs(files, stream, xs, Counted(xs, NumParts(|stream.data|)), ix);
    HashNames(stream.hash, stream.hash);
    SplitNone(stream.hash, ':');
  }

  // ---- The receiver as the program keeps it ----

  /** The directory of partly received files. */
  class FileStore {
    var files: Files

    constructor ()
      ensures files == map[]
    {
      files := map[];
    }

    method UpdateMetaFile(metaFile: string, chunk: string, total: string) returns (verdict: Option<bool>)
      modifies this
      ensures (files, verdict) == UpdateMeta(old(files), metaFile, chunk, total)
    {
      if metaFile !in files {
        files := files[metaFile := ""];
      }
      var chunks: seq<string> := [];
      var metaFileData := files[metaFile];
      if |metaFileData| != 0 {
        var parsed := Unmarshal(metaFileData);
        if parsed.None? {
          return None;
        }
        chunks := parsed.value;
      }
      chunks := chunks + [chunk];
      files := files[metaFile := WriteAt(files[metaFile], Marshal(chunks), 0)];
      var totalPackets := Atoi(total);
      if totalPackets.None? {
        return None;
      }
      if |chunks| == totalPackets.value {
        files := files - {metaFile};
        return Some(true);
      }
      return Some(false);
    }
  }

  class FilePacket {
    var data: Option<string>
    var path: string
    var uniq: string

    ghost function View(): FileView
      reads this
    {
      FileView(data, path, uniq)
    }

    method ParseFileStream(store: FileStore) returns (verdict: Option<bool>)
      modifies this, store
      ensures (store.files, View(), verdict) == Receive(old(store.files), old(View()))
    {
      if uniq == "" {
        path := "";
        return Some(true);
      }
      var uniqArr := Split(uniq, ':');
      if data.None? && path != "" && uniq != "" && |uniqArr| == 1 {
        return Some(true);
      } else if |uniqArr| != 3 {
        return None;
      }
      var tempFile := uniqArr[0];
      if tempFile !in store.files {
        store.files := store.files[tempFile := ""];
      }
      var curPacket := Atoi(uniqArr[1]);
      if curPacket.None? {
        return None;
      }
      var offset := WrapInt((curPacket.value - 1) * CHUNK);
      if offset < 0 {
        return None;
      }
      var bytes := if data.Some? then data.value else "";
      store.files := store.files[tempFile := WriteAt(store.files[tempFile], bytes, offset)];
      data, path, uniq := None, TEMP_DIR + tempFile, tempFile;
      verdict := store.UpdateMetaFile(MetaName(uniqArr[0]), uniqArr[1], uniqArr[2]);
    }
  }
}
