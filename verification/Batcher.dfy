/** The telemetry client (pkg/observability/client.go): packets wait in a queue, are uploaded
    in batches under a byte limit, and the oldest are given up when the queue grows too big. */
module Batcher {
  import opened Basics

  const UPLOAD_CHAN := 2048

  function Size(items: seq<Bytes>): nat {
    if items == [] then 0 else |items[0]| + Size(items[1..])
  }

  function Flatten(batches: seq<seq<Bytes>>): seq<Bytes> {
    if batches == [] then [] else batches[0] + Flatten(batches[1..])
  }

  lemma {:induction false} SizeConcat(a: seq<Bytes>, b: seq<Bytes>)
    ensures Size(a + b) == Size(a) + Size(b)
  {
    if a == [] {
      assert a + b == b;
    } else {
      assert (a + b)[1..] == a[1..] + b;
      SizeConcat(a[1..], b);
    }
  }

  lemma {:induction false} FlattenConcat(a: seq<seq<Bytes>>, b: seq<seq<Bytes>>)
    ensures Flatten(a + b) == Flatten(a) + Flatten(b)
  {
    if a == [] {
      assert a + b == b;
    } else {
      assert (a + b)[1..] == a[1..] + b;
      FlattenConcat(a[1..], b);
      ConcatAssoc(a[0], Flatten(a[1..]), Flatten(b));
    }
  }

  // ---- Packing ----

  /** A batch may hold any number of items within the limit, or one item of any size. */
  predicate Fits(batch: seq<Bytes>, limit: int) {
    batch != [] && (Size(batch) <= limit || |batch| == 1)
  }

  ghost predicate IsSplit(batches: seq<seq<Bytes>>, items: seq<Bytes>, limit: int) {
    Flatten(batches) == items && forall b :: b in batches ==> Fits(b, limit)
  }

  /** How many items of the queue the batch that already holds `n` of them ends up with. */
  function BatchLen(items: seq<Bytes>, limit: int, n: nat): (len: nat)
    requires n <= |items|
    ensures n <= len <= |items|
    ensures n == 0 && items != [] ==> len > 0
    decreases |items| - n
  {
    if n == |items| || (n != 0 && Size(items[..n + 1]) > limit) then n
    else BatchLen(items, limit, n + 1)
  }

  function Batches(items: seq<Bytes>, limit: int): seq<seq<Bytes>>
    decreases |items|
  {
    if items == [] then []
    else
      var n := BatchLen(items, limit, 0);
      [items[..n]] + Batches(items[n..], limit)
  }

  lemma SizePrefix(items: seq<Bytes>, m: nat, n: nat)
    requires m <= n <= |items|
    ensures Size(items[..m]) <= Size(items[..n])
    ensures Size(items[..n]) == Size(items[..m]) + Size(items[m..n])
  {
    assert items[..n] == items[..m] + items[m..n];
    SizeConcat(items[..m], items[m..n]);
  }

  /** The batch is the longest non-empty prefix that fits. */
  lemma {:induction false} BatchIsLongest(items: seq<Bytes>, limit: int, n: nat, k: nat)
    requires n <= |items| && items != [] && (n <= 1 || Fits(items[..n], limit))
    requires BatchLen(items, limit, n) < k <= |items|
    ensures Fits(items[..BatchLen(items, limit, n)], limit) && !Fits(items[..k], limit)
    decreases |items| - n
  {
    if n != 0 && Size(items[..n + 1]) > limit {
      SizePrefix(items, n + 1, k);
    } else {
      BatchIsLongest(items, limit, n + 1, k);
    }
  }

  lemma {:induction false} BatchFits(items: seq<Bytes>, limit: int, n: nat)
    requires n <= |items| && items != [] && (n <= 1 || Fits(items[..n], limit))
    ensures Fits(items[..BatchLen(items, limit, n)], limit)
    decreases |items| - n
  {
    if n < |items| && !(n != 0 && Size(items[..n + 1]) > limit) {
      BatchFits(items, limit, n + 1);
    }
  }

  /** The batches are consecutive, lose nothing and obey the limit. */
  lemma {:induction false} BatchesSplit(items: seq<Bytes>, limit: int)
    ensures IsSplit(Batches(items, limit), items, limit)
    decreases |items|
  {
    if items != [] {
      var n := BatchLen(items, limit, 0);
      BatchFits(items, limit, 0);
      BatchesSplit(items[n..], limit);
      assert items == items[..n] + items[n..];
    }
  }

  /** Greedy stays ahead: packing the tail from i needs no more batches than any split of a
      tail that starts no later. */
  lemma {:induction false} GreedyStaysAhead(items: seq<Bytes>, j: nat, i: nat, limit: int, split: seq<seq<Bytes>>)
    requires j <= i <= |items| && IsSplit(split, items[j..], limit)
    ensures |Batches(items[i..], limit)| <= |split|
    decreases |split|
  {
    if i == |items| {
    } else {
      assert split != [] by { assert items[j..] != []; }
      var first, rest := split[0], split[1..];
      var end := j + |first|;
      assert items[j..] == first + Flatten(rest);
      assert items[end..] == items[j..][|first|..] == Flatten(rest);
      assert IsSplit(rest, items[end..], limit);
      if end <= i {
        GreedyStaysAhead(items, end, i, limit, rest);
      } else {
        var tail := items[i..];
        var n := BatchLen(tail, limit, 0);
        if i + n < end {
          var k := end - i;
          assert tail[..k] == items[i..end];
          assert first == items[j..end] by { assert first == items[j..][..|first|]; }
          assert items[j..end] == items[j..i] + items[i..end];
          SizeConcat(items[j..i], items[i..end]);
          assert Fits(first, limit);
          assert Fits(tail[..k], limit);
          BatchIsLongest(tail, limit, 0, k);
          assert false;
        }
        assert tail[n..] == items[i + n..];
        GreedyStaysAhead(items, end, i + n, limit, rest);
      }
    }
  }

  /** No split into consecutive batches obeying the same rule uses fewer batches. */
  lemma GreedyIsOptimal(items: seq<Bytes>, limit: int, split: seq<seq<Bytes>>)
    requires IsSplit(split, items, limit)
    ensures |Batches(items, limit)| <= |split|
  {
    assert items[0..] == items;
    GreedyStaysAhead(items, 0, 0, limit, split);
  }

  // ---- Trimming ----

  /** Start of the tail that survives: scanning down from `n`, with everything from n on kept. */
  function KeepFrom(items: seq<Bytes>, limit: int, n: nat): (k: nat)
    requires n <= |items|
    ensures k <= n
  {
    if n == 0 || Size(items[n - 1..]) > limit then n else KeepFrom(items, limit, n - 1)
  }

  lemma SizeSuffix(items: seq<Bytes>, m: nat, n: nat)
    requires m <= n <= |items|
    ensures Size(items[n..]) <= Size(items[m..])
  {
    assert items[m..] == items[m..n] + items[n..];
    SizeConcat(items[m..n], items[n..]);
  }

  /** What is kept is the longest tail within the limit (nothing, if not even the empty one is). */
  lemma {:induction false} KeepsLongestTail(items: seq<Bytes>, limit: int, n: nat)
    requires n <= |items| && (n == |items| || Size(items[n..]) <= limit)
    ensures var k := KeepFrom(items, limit, n);
            && (k == |items| || Size(items[k..]) <= limit)
            && (forall j :: 0 <= j < k ==> Size(items[j..]) > limit)
  {
    if n == 0 {
    } else if Size(items[n - 1..]) > limit {
      forall j | 0 <= j < n ensures Size(items[j..]) > limit {
        SizeSuffix(items, j, n - 1);
      }
    } else {
      KeepsLongestTail(items, limit, n - 1);
    }
  }

  // ---- One flush ----

  /** The first failing call among i..n, or n. `accept(i)` is the outcome of the i-th call. */
  function Successes(accept: nat -> bool, i: nat, n: nat): (k: nat)
    requires i <= n
    ensures i <= k <= n
    ensures forall j :: i <= j < k ==> accept(j)
    ensures k < n ==> !accept(k)
    decreases n - i
  {
    if i == n || !accept(i) then i else Successes(accept, i + 1, n)
  }

  datatype Config = Config(queueLimit: int, packetLimit: int)

  datatype Flushed = Flushed(sent: seq<seq<Bytes>>, trimmed: seq<Bytes>, queue: seq<Bytes>)

  function Trim(sent: seq<seq<Bytes>>, rest: seq<Bytes>, cfg: Config): Flushed {
    var k := KeepFrom(rest, cfg.queueLimit, |rest|);
    Flushed(sent, rest[..k], rest[k..])
  }

  /** `accept` is None while no upload callback is set. */
  function Flush(queue: seq<Bytes>, cfg: Config, accept: Option<nat -> bool>): Flushed {
    if queue == [] then Flushed([], [], [])
    else if accept.None? then Trim([], queue, cfg)
    else
      var batches := Batches(queue, cfg.packetLimit);
      var k := Successes(accept.value, 0, |batches|);
      Trim(batches[..k], Flatten(batches[k..]), cfg)
  }

  /** A flush gives every item of the queue exactly one fate, oldest first. */
  lemma FlushConserves(queue: seq<Bytes>, cfg: Config, accept: Option<nat -> bool>)
    ensures var f := Flush(queue, cfg, accept);
            queue == Flatten(f.sent) + f.trimmed + f.queue
  {
    if queue != [] && accept.Some? {
      var batches := Batches(queue, cfg.packetLimit);
      var k := Successes(accept.value, 0, |batches|);
      BatchesSplit(queue, cfg.packetLimit);
      assert batches == batches[..k] + batches[k..];
      FlattenConcat(batches[..k], batches[k..]);
      var f := Flush(queue, cfg, accept);
      assert Flatten(batches[k..]) == f.trimmed + f.queue;
      ConcatAssoc(Flatten(f.sent), f.trimmed, f.queue);
    }
  }

  /** When every upload succeeds nothing is kept or given up, and the uploads are the fewest. */
  lemma FlushSendsAll(queue: seq<Bytes>, cfg: Config, accept: nat -> bool, split: seq<seq<Bytes>>)
    requires forall i: nat :: accept(i)
    requires IsSplit(split, queue, cfg.packetLimit)
    ensures var f := Flush(queue, cfg, Some(accept));
            IsSplit(f.sent, queue, cfg.packetLimit) && f.trimmed == [] && f.queue == [] && |f.sent| <= |split|
  {
    if queue != [] {
      var batches := Batches(queue, cfg.packetLimit);
      BatchesSplit(queue, cfg.packetLimit);
      GreedyIsOptimal(queue, cfg.packetLimit, split);
      assert batches[..|batches|] == batches && batches[|batches|..] == [];
    }
  }

  /** After a flush of a non-empty queue the longest tail of the unsent items that fits stays. */
  lemma FlushKeepsLongestTail(queue: seq<Bytes>, cfg: Config, accept: Option<nat -> bool>)
    requires queue != []
    ensures var f := Flush(queue, cfg, accept);
            var rest := f.trimmed + f.queue;
            && Flatten(f.sent) + rest == queue
            && (f.queue == [] || Size(f.queue) <= cfg.queueLimit)
            && (forall j :: 0 <= j < |f.trimmed| ==> Size(rest[j..]) > cfg.queueLimit)
  {
    FlushConserves(queue, cfg, accept);
    var f := Flush(queue, cfg, accept);
    ConcatAssoc(Flatten(f.sent), f.trimmed, f.queue);
    var rest := if accept.None? then queue
                else
                  var batches := Batches(queue, cfg.packetLimit);
                  Flatten(batches[Successes(accept.value, 0, |batches|)..]);
    assert f.trimmed + f.queue == rest;
    KeepsLongestTail(rest, cfg.queueLimit, |rest|);
  }

  // ---- Runs of the client ----

  datatype Fate = Uploaded | Trimmed

  datatype Client = Client(queue: seq<Bytes>, uploads: seq<Bytes>, stopped: bool)

  /** The client with everything ever submitted and the fate of everything it let go. */
  datatype History = History(c: Client, submitted: seq<Bytes>, processed: seq<(Bytes, Fate)>)

  datatype Event =
    | Enqueue(item: Bytes)                  // one item of UploadTraces or UploadMetrics
    | Transfer(n: nat)                      // the uploader takes n items off its channel
    | FlushQueue(accept: Option<nat -> bool>)
    | StopClient(accept: Option<nat -> bool>)
    | StartClient

  predicate Enabled(c: Client, e: Event) {
    match e
    case Enqueue(_) => !c.stopped && |c.uploads| < UPLOAD_CHAN
    case Transfer(n) => !c.stopped && 1 <= n <= |c.uploads|
    case FlushQueue(_) => !c.stopped
    case StopClient(_) => !c.stopped
    case StartClient => c.stopped
  }

  function WithFate(items: seq<Bytes>, fate: Fate): (r: seq<(Bytes, Fate)>) {
    seq(|items|, i requires 0 <= i < |items| => (items[i], fate))
  }

  function Settle(h: History, c: Client, f: Flushed): History {
    History(c.(queue := f.queue), h.submitted,
            h.processed + WithFate(Flatten(f.sent), Uploaded) + WithFate(f.trimmed, Trimmed))
  }

  function Drain(c: Client, n: nat): Client
    requires n <= |c.uploads|
  {
    c.(queue := c.queue + c.uploads[..n], uploads := c.uploads[n..])
  }

  function Step(h: History, cfg: Config, e: Event): History
    requires Enabled(h.c, e)
  {
    match e
    case Enqueue(item) => h.(c := h.c.(uploads := h.c.uploads + [item]), submitted := h.submitted + [item])
    case Transfer(n) => h.(c := Drain(h.c, n))
    case FlushQueue(accept) => Settle(h, h.c, Flush(h.c.queue, cfg, accept))
    case StopClient(accept) =>
      var c := Drain(h.c, |h.c.uploads|);
      Settle(h, c.(stopped := true), Flush(c.queue, cfg, accept))
    case StartClient => h.(c := h.c.(stopped := false))
  }

  function Run(cfg: Config, run: seq<Event>): Option<History>
    decreases |run|
  {
    if run == [] then Some(History(Client([], [], true), [], []))
    else
      var n := |run| - 1;
      match Run(cfg, run[..n])
      case None => None
      case Some(h) => if Enabled(h.c, run[n]) then Some(Step(h, cfg, run[n])) else None
  }

  function Items(processed: seq<(Bytes, Fate)>): seq<Bytes> {
    seq(|processed|, i requires 0 <= i < |processed| => processed[i].0)
  }

  /** Everything submitted is, in order: settled, queued, or still in the channel. */
  ghost predicate Conserved(h: History) {
    h.submitted == Items(h.processed) + h.c.queue + h.c.uploads
  }

  lemma ItemsSettled(processed: seq<(Bytes, Fate)>, up: seq<Bytes>, out: seq<Bytes>)
    ensures Items(processed + WithFate(up, Uploaded) + WithFate(out, Trimmed)) == Items(processed) + up + out
  {
  }

  lemma RegroupItems(done: seq<Bytes>, up: seq<Bytes>, out: seq<Bytes>, queue: seq<Bytes>, rest: seq<Bytes>)
    ensures done + (up + out + queue) + rest == done + up + out + queue + rest
  {
  }

  lemma SettleConserves(h: History, c: Client, cfg: Config, accept: Option<nat -> bool>)
    requires h.submitted == Items(h.processed) + c.queue + c.uploads
    ensures Conserved(Settle(h, c, Flush(c.queue, cfg, accept)))
  {
    var f := Flush(c.queue, cfg, accept);
    FlushConserves(c.queue, cfg, accept);
    ItemsSettled(h.processed, Flatten(f.sent), f.trimmed);
    RegroupItems(Items(h.processed), Flatten(f.sent), f.trimmed, f.queue, c.uploads);
  }

  lemma DrainConserves(done: seq<Bytes>, c: Client, n: nat)
    requires n <= |c.uploads|
    ensures done + c.queue + c.uploads == done + Drain(c, n).queue + Drain(c, n).uploads
  {
    assert c.uploads == c.uploads[..n] + c.uploads[n..];
  }

  lemma StepConserves(h: History, cfg: Config, e: Event)
    requires Enabled(h.c, e) && Conserved(h)
    ensures Conserved(Step(h, cfg, e))
  {
    match e
    case Enqueue(_) =>
    case Transfer(n) => DrainConserves(Items(h.processed), h.c, n);
    case FlushQueue(accept) => SettleConserves(h, h.c, cfg, accept);
    case StopClient(accept) =>
      DrainConserves(Items(h.processed), h.c, |h.c.uploads|);
      SettleConserves(h, Drain(h.c, |h.c.uploads|).(stopped := true), cfg, accept);
    case StartClient =>
  }

  /** Over every run, with any callback failures, each submitted item is uploaded or given up
      exactly once or still waits, and order is kept throughout. */
  lemma {:induction false} EveryRunConserves(cfg: Config, run: seq<Event>)
    requires Run(cfg, run).Some?
    ensures Conserved(Run(cfg, run).value)
    ensures Run(cfg, run).value.c.stopped ==> Run(cfg, run).value.c.uploads == []
    decreases |run|
  {
    if run != [] {
      var n := |run| - 1;
      EveryRunConserves(cfg, run[..n]);
      StepConserves(Run(cfg, run[..n]).value, cfg, run[n]);
    }
  }

  /** Stopping with a working callback leaves nothing behind. */
  lemma StopLeavesNothing(cfg: Config, run: seq<Event>, accept: nat -> bool)
    requires Run(cfg, run).Some? && !Run(cfg, run).value.c.stopped && forall i: nat :: accept(i)
    ensures var h := Step(Run(cfg, run).value, cfg, StopClient(Some(accept)));
            h.submitted == Items(h.processed) && h.c == Client([], [], true)
  {
    EveryRunConserves(cfg, run);
    var h := Run(cfg, run).value;
    StepConserves(h, cfg, StopClient(Some(accept)));
    var queue := Drain(h.c, |h.c.uploads|).queue;
    BatchesSplit(queue, cfg.packetLimit);
    FlushSendsAll(queue, cfg, accept, Batches(queue, cfg.packetLimit));
  }

  // ---- The client as the program keeps it ----

  class HookClient {
    const cfg: Config
    var queue: seq<Bytes>
    var uploadChan: seq<Bytes>
    var stopped: bool

    constructor (cfg: Config)
      ensures this.cfg == cfg && View() == Client([], [], true)
    {
      this.cfg, queue, uploadChan, stopped := cfg, [], [], true;
    }

    ghost function View(): Client
      reads this
    {
      Client(queue, uploadChan, stopped)
    }

    /** The deferred part of a flush, scanning the queue from its newest item. */
    method TrimQueue()
      modifies this`queue
      ensures queue == Trim([], old(queue), cfg).queue
    {
      var total := 0;
      var idx := |queue| - 1;
      while idx >= 0
        invariant -1 <= idx < |queue| && queue == old(queue)
        invariant total == Size(queue[idx + 1..])
        invariant KeepFrom(queue, cfg.queueLimit, |queue|) == KeepFrom(queue, cfg.queueLimit, idx + 1)
      {
        assert queue[idx..] == [queue[idx]] + queue[idx + 1..];
        total := total + |queue[idx]|;
        if total > cfg.queueLimit {
          queue := queue[idx + 1..];
          return;
        }
        idx := idx - 1;
      }
    }

    /** `sent` lists the batches the callback took. */
    method FlushQueue(accept: Option<nat -> bool>) returns (sent: seq<seq<Bytes>>)
      modifies this`queue
      ensures var f := Flush(old(queue), cfg, accept);
              sent == f.sent && queue == f.queue
    {
      sent := [];
      if |queue| == 0 {
        return;
      }
      if accept.None? {
        TrimQueue();
        return;
      }
      var ok;
      sent, ok := UploadQueue(accept.value);
      TrimQueue();
    }

    /** Uploads batch after batch until one fails. */
    method UploadQueue(accept: nat -> bool) returns (sent: seq<seq<Bytes>>, ok: bool)
      requires queue != []
      modifies this`queue
      ensures var batches := Batches(old(queue), cfg.packetLimit);
              var k := Successes(accept, 0, |batches|);
              sent == batches[..k] && queue == Flatten(batches[k..]) && ok == (k == |batches|)
    {
      ghost var batches := Batches(queue, cfg.packetLimit);
      sent := [];
      var partNum, packetSize, packetData := 0, 0, [];
      var turn, turns := 0, |queue|;
      BatchesSplit(queue, cfg.packetLimit);
      while turn < turns
        invariant turn <= turns && |queue| - partNum == turns - turn
        invariant 0 <= partNum <= |queue| && queue != []
        invariant turn > 0 ==> partNum > 0
        invariant packetData == queue[..partNum] && packetSize == Size(packetData)
        invariant batches == sent + Batches(queue, cfg.packetLimit)
        invariant BatchLen(queue, cfg.packetLimit, 0) == BatchLen(queue, cfg.packetLimit, partNum)
        invariant AcceptedTo(accept, |sent|)
      {
        var partSize := |queue[partNum]|;
        OneMore(queue, partNum);
        if packetSize + partSize > cfg.packetLimit && partNum != 0 {
          if !accept(|sent|) {
            StoppedAt(accept, batches, sent, queue);
            return sent, false;
          }
          NextBatch(batches, sent, queue, partNum);
          sent := sent + [packetData];
          queue := queue[partNum..];
          packetData, packetSize, partNum := [], 0, 0;
          OneMore(queue, 0);
        }
        packetData := packetData + [queue[partNum]];
        packetSize := packetSize + partSize;
        partNum := partNum + 1;
        turn := turn + 1;
      }
      if !accept(|sent|) {
        StoppedAt(accept, batches, sent, queue);
        return sent, false;
      }
      NextBatch(batches, sent, queue, partNum);
      sent := sent + [packetData];
      queue := queue[partNum..];
      assert sent == batches;
      AllSent(accept, sent);
      return sent, true;
    }

    ghost predicate AcceptedTo(accept: nat -> bool, n: nat) {
      forall i :: 0 <= i < n ==> accept(i)
    }

    lemma AllSent(accept: nat -> bool, batches: seq<seq<Bytes>>)
      requires AcceptedTo(accept, |batches|)
      ensures Successes(accept, 0, |batches|) == |batches|
      ensures batches[..|batches|] == batches && Flatten(batches[|batches|..]) == []
    {
    }

    lemma OneMore(items: seq<Bytes>, n: nat)
      requires n < |items|
      ensures items[..n + 1] == items[..n] + [items[n]]
      ensures Size(items[..n + 1]) == Size(items[..n]) + |items[n]|
    {
      assert items[..n + 1] == items[..n] + [items[n]];
      SizeConcat(items[..n], [items[n]]);
    }

    lemma NextBatch(batches: seq<seq<Bytes>>, sent: seq<seq<Bytes>>, items: seq<Bytes>, n: nat)
      requires items != [] && n == BatchLen(items, cfg.packetLimit, 0)
      requires batches == sent + Batches(items, cfg.packetLimit)
      ensures batches == (sent + [items[..n]]) + Batches(items[n..], cfg.packetLimit)
    {
      ConcatAssoc(sent, [items[..n]], Batches(items[n..], cfg.packetLimit));
    }

    lemma StoppedAt(accept: nat -> bool, batches: seq<seq<Bytes>>, sent: seq<seq<Bytes>>, rest: seq<Bytes>)
      requires rest != [] && batches == sent + Batches(rest, cfg.packetLimit)
      requires AcceptedTo(accept, |sent|) && !accept(|sent|)
      ensures Successes(accept, 0, |batches|) == |sent| < |batches|
      ensures batches[..|sent|] == sent && Flatten(batches[|sent|..]) == rest
    {
      BatchesSplit(rest, cfg.packetLimit);
      assert batches[|sent|..] == Batches(rest, cfg.packetLimit);
    }

    method Enqueue(item: Bytes) returns (ok: bool)
      requires !stopped ==> |uploadChan| < UPLOAD_CHAN
      modifies this`uploadChan
      ensures ok == !stopped
      ensures uploadChan == if ok then old(uploadChan) + [item] else old(uploadChan)
    {
      if stopped {
        return false;
      }
      uploadChan := uploadChan + [item];
      return true;
    }

    /** Takes over everything that was in the channel when the call began. */
    method ReadAllUploads()
      modifies this`queue, this`uploadChan
      ensures View() == Drain(old(View()), |old(uploadChan)|)
    {
      var nchan := |uploadChan|;
      var idx := 0;
      while idx < nchan
        invariant 0 <= idx <= nchan
        invariant queue == old(queue) + old(uploadChan)[..idx] && uploadChan == old(uploadChan)[idx..]
      {
        queue := queue + [uploadChan[0]];
        uploadChan := uploadChan[1..];
        idx := idx + 1;
      }
    }

    method Stop(accept: Option<nat -> bool>) returns (ok: bool, sent: seq<seq<Bytes>>)
      modifies this
      ensures ok == !old(stopped) && stopped
      ensures !ok ==> View() == old(View()) && sent == []
      ensures ok ==> var c := Drain(old(View()), |old(uploadChan)|);
                     var f := Flush(c.queue, cfg, accept);
                     View() == c.(stopped := true, queue := f.queue) && sent == f.sent
    {
      if stopped {
        return false, [];
      }
      ReadAllUploads();
      sent := FlushQueue(accept);
      stopped := true;
      return true, sent;
    }

    method Start() returns (ok: bool)
      modifies this`stopped
      ensures ok == old(stopped) && !stopped
    {
      ok := stopped;
      stopped := false;
    }
  }
}
