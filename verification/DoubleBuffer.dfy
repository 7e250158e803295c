/**
 The ping-pong reader of the ADC test server.  The FPGA writes one sample block after
 another into a ring of two halves of h blocks each; the server polls how far the writer
 has got and sends the half that is not being written.  The code has h = 32 * 1024.

 Blocks are numbered in the order in which they are written, so a client that received
 0, 1, 2, ... has received the stream.
 */
module DoubleBuffer {
  import opened Arithmetic

  /** The block that ring slot `slot` holds when `written` blocks have been written; -1 if none yet. */
  function Holds(h: nat, written: nat, slot: nat): int
    requires h > 0
  {
    if written <= slot then -1 else written - 1 - (written - 1 - slot) % (2 * h)
  }

  datatype Server = Server(limit: nat, written: nat, client: seq<int>)

  function Start(h: nat): Server { Server(h, 0, []) }

  /**
   What happens during one pass of the loop: by how much the writer advances and, if the
   pass sends, how far the writer is when each block is read.
   */
  datatype Pass = Pass(advance: nat, at: seq<nat>)

  function Position(h: nat, s: Server): nat
    requires h > 0
  {
    s.written % (2 * h)
  }

  predicate Ready(h: nat, s: Server)
    requires h > 0
  {
    (s.limit > 0 && Position(h, s) > s.limit) || (s.limit == 0 && Position(h, s) < h)
  }

  function Sent(h: nat, offset: nat, at: seq<nat>): (r: seq<int>)
    requires h > 0
    ensures |r| == |at|
  {
    seq(|at|, j requires 0 <= j < |at| => Holds(h, at[j], offset + j))
  }

  function Step(h: nat, s: Server, p: Pass): Server
    requires h > 0
  {
    var s' := s.(written := s.written + p.advance);
    if !Ready(h, s) then s'
    else
      s'.(limit := if s.limit > 0 then 0 else h,
          client := s.client + Sent(h, if s.limit > 0 then 0 else h, p.at))
  }

  function Run(h: nat, passes: seq<Pass>): Server
    requires h > 0
  {
    if passes == [] then Start(h)
    else Step(h, Run(h, passes[..|passes| - 1]), passes[|passes| - 1])
  }

  /** The server's loop, for as many passes as given. */
  method Serve(h: nat, passes: seq<Pass>) returns (client: seq<int>, limit: nat)
    requires h > 0
    ensures client == Run(h, passes).client && limit == Run(h, passes).limit
  {
    limit := h;
    client := [];
    var written: nat := 0;
    for i := 0 to |passes|
      invariant Run(h, passes[..i]) == Server(limit, written, client)
    {
      assert passes[..i + 1][..i] == passes[..i];
      var position := written % (2 * h);
      if (limit > 0 && position > limit) || (limit == 0 && position < h) {
        var offset := if limit > 0 then 0 else h;
        limit := if limit > 0 then 0 else h;
        client := client + Sent(h, offset, passes[i].at);
      }
      written := written + passes[i].advance;
    }
    assert passes[..|passes|] == passes;
  }

  // ---------- The timing hypothesis ----------

  /** The writer advances at most `idle` blocks in a pass that sleeps and `busy` in one that sends. */
  ghost predicate PassTimely(h: nat, idle: nat, busy: nat, s: Server, p: Pass)
    requires h > 0
  {
    if Ready(h, s) then
      && p.advance <= busy && |p.at| == h
      && forall j | 0 <= j < h :: s.written <= p.at[j] <= s.written + p.advance
    else p.advance <= idle
  }

  ghost predicate Timely(h: nat, idle: nat, busy: nat, passes: seq<Pass>)
    requires h > 0
  {
    passes == [] ||
    (Timely(h, idle, busy, passes[..|passes| - 1]) &&
     PassTimely(h, idle, busy, Run(h, passes[..|passes| - 1]), passes[|passes| - 1]))
  }

  ghost predicate InOrder(client: seq<int>) { forall i | 0 <= i < |client| :: client[i] == i }

  lemma ModOf(h: nat, q: nat, x: nat)
    requires h > 0 && x < 2 * h
    ensures (2 * h * q + x) % (2 * h) == x
  {
    assert 2 * h * q == q * (2 * h);
    Divides(q, 2 * h, x);
  }

  /**
   The state before a pass, when k halves have been sent: the client has exactly those,
   and the writer is at most `idle` blocks past the end of half k.
   */
  ghost predicate Inv(h: nat, idle: nat, s: Server, k: nat) {
    && s.limit == (if k % 2 == 0 then h else 0)
    && k * h <= s.written <= (k + 1) * h + idle
    && |s.client| == k * h && InOrder(s.client)
  }

  /** Within reach of half k, `Ready` means that half k is complete. */
  lemma ReadyMeansComplete(h: nat, idle: nat, s: Server, k: nat)
    requires 0 < h && idle < h && Inv(h, idle, s, k)
    ensures Ready(h, s) ==> s.written >= (k + 1) * h
    ensures !Ready(h, s) ==> s.written <= (k + 1) * h
  {
    var q := k / 2;
    var base := 2 * h * q;
    if k % 2 == 0 {
      assert k * h == base by { assert k == 2 * q; }
      assert (k + 1) * h == base + h;
      ModOf(h, q, s.written - base);
    } else {
      assert k * h == base + h by { assert k == 2 * q + 1; }
      assert (k + 1) * h == base + 2 * h;
      if s.written < base + 2 * h {
        ModOf(h, q, s.written - base);
      } else {
        assert 2 * h * (q + 1) == base + 2 * h;
        ModOf(h, q + 1, s.written - base - 2 * h);
      }
    }
  }

  lemma SlotOf(h: nat, k: nat, j: nat)
    ensures k * h + j == 2 * h * (k / 2) + ((if k % 2 == 0 then 0 else h) + j)
  {
    var q := k / 2;
    if k % 2 == 0 {
      assert k == 2 * q;
    } else {
      assert k == 2 * q + 1;
      Distribute(2 * q, 1, h);
    }
    Reorder(2, q, h);
  }

  /** Half k stays intact until the writer passes the end of half k + 1. */
  lemma HalfIntact(h: nat, k: nat, j: nat, at: nat)
    requires j < h && (k + 1) * h <= at <= (k + 2) * h
    ensures Holds(h, at, (if k % 2 == 0 then 0 else h) + j) == k * h + j
  {
    var q := k / 2;
    var slot := (if k % 2 == 0 then 0 else h) + j;
    var base := 2 * h * q;
    SlotOf(h, k, j);
    Distribute(k, 1, h);
    Distribute(k, 2, h);
    ModOf(h, q, at - 1 - (k * h + j));
    assert at - 1 - slot == base + (at - 1 - (k * h + j));
  }

  lemma StepKeeps(h: nat, idle: nat, busy: nat, s: Server, k: nat, p: Pass)
    requires 0 < h && idle < h && idle + busy <= h
    requires Inv(h, idle, s, k) && PassTimely(h, idle, busy, s, p)
    ensures Inv(h, idle, Step(h, s, p), if Ready(h, s) then k + 1 else k)
  {
    ReadyMeansComplete(h, idle, s, k);
    assert (k + 1) * h == k * h + h && (k + 2) * h == k * h + 2 * h;
    if Ready(h, s) {
      var offset := if s.limit > 0 then 0 else h;
      var sent := Sent(h, offset, p.at);
      forall j | 0 <= j < h ensures sent[j] == k * h + j { HalfIntact(h, k, j, p.at[j]); }
      NextHalf(h, s.client, sent, k);
    }
  }

  lemma NextHalf(h: nat, client: seq<int>, sent: seq<int>, k: nat)
    requires |client| == k * h && InOrder(client) && |sent| == h
    requires forall j | 0 <= j < h :: sent[j] == k * h + j
    ensures |client + sent| == (k + 1) * h && InOrder(client + sent)
  {
    assert (k + 1) * h == k * h + h;
  }

  lemma {:induction false} RunKeeps(h: nat, idle: nat, busy: nat, passes: seq<Pass>) returns (k: nat)
    requires 0 < h && idle < h && idle + busy <= h
    requires Timely(h, idle, busy, passes)
    ensures Inv(h, idle, Run(h, passes), k)
  {
    if passes == [] {
      k := 0;
    } else {
      var init := passes[..|passes| - 1];
      k := RunKeeps(h, idle, busy, init);
      StepKeeps(h, idle, busy, Run(h, init), k, passes[|passes| - 1]);
      if Ready(h, Run(h, init)) { k := k + 1; }
    }
  }

  /** The client receives the written stream: whole halves, in order, nothing lost or overwritten. */
  lemma ClientGetsPrefix(h: nat, idle: nat, busy: nat, passes: seq<Pass>)
    requires 0 < h && idle < h && idle + busy <= h
    requires Timely(h, idle, busy, passes)
    ensures var s := Run(h, passes); InOrder(s.client) && |s.client| % h == 0 && |s.client| <= s.written
  {
    var k := RunKeeps(h, idle, busy, passes);
    if k > 0 { Divides(k, h, 0); }
  }

  /** While half k is being sent, it is complete and the writer is in the other half. */
  lemma SendsAreExclusive(h: nat, idle: nat, busy: nat, passes: seq<Pass>, p: Pass)
    requires 0 < h && idle < h && idle + busy <= h
    requires Timely(h, idle, busy, passes) && Ready(h, Run(h, passes))
    requires PassTimely(h, idle, busy, Run(h, passes), p)
    ensures var s := Run(h, passes); var n := |s.client|;
      n + h <= s.written && s.written + p.advance <= n + 2 * h
    ensures var s := Run(h, passes); s.limit == h || s.limit == 0
  {
    var k := RunKeeps(h, idle, busy, passes);
    ReadyMeansComplete(h, idle, Run(h, passes), k);
    assert (k + 1) * h == k * h + h;
  }

  // ---------- The hypothesis is exact ----------

  /** Whatever a timely writer does, the client receives the stream. */
  ghost predicate Safe(h: nat, idle: nat, busy: nat)
    requires h > 0
  {
    forall passes | Timely(h, idle, busy, passes) :: InOrder(Run(h, passes).client)
  }

  /** `passes`, then n passes in which the writer advances by one block. */
  function Crawl(passes: seq<Pass>, n: nat): seq<Pass> {
    if n == 0 then passes else Crawl(passes, n - 1) + [Pass(1, [])]
  }

  lemma AddPass(h: nat, idle: nat, busy: nat, passes: seq<Pass>, p: Pass)
    requires h > 0 && Timely(h, idle, busy, passes) && PassTimely(h, idle, busy, Run(h, passes), p)
    ensures Timely(h, idle, busy, passes + [p]) && Run(h, passes + [p]) == Step(h, Run(h, passes), p)
  {
    assert (passes + [p])[..|passes|] == passes;
  }

  lemma SmallMod(n: nat, d: nat)
    requires n < d
    ensures n % d == n
  {
  }

  /** One block further, a state that waits for the first half to pass still waits. */
  lemma CrawlOnce(h: nat, idle: nat, busy: nat, passes: seq<Pass>, base: nat, laps: nat, n: nat)
    requires h > 0 && idle > 0 && n < h && base == 2 * h * laps
    requires Timely(h, idle, busy, passes) && Run(h, passes) == Server(h, base + n, [])
    ensures Timely(h, idle, busy, passes + [Pass(1, [])])
    ensures Run(h, passes + [Pass(1, [])]) == Server(h, base + n + 1, [])
  {
    ModOf(h, laps, n);
    AddPass(h, idle, busy, passes, Pass(1, []));
  }

  /** The writer creeps to the end of a first half that the server waits for. */
  lemma {:induction false} CrawlIdles(h: nat, idle: nat, busy: nat, passes: seq<Pass>, base: nat, laps: nat, n: nat)
    requires h > 0 && idle > 0 && n <= h && base == 2 * h * laps
    requires Timely(h, idle, busy, passes) && Run(h, passes) == Server(h, base, [])
    ensures Timely(h, idle, busy, Crawl(passes, n))
    ensures Run(h, Crawl(passes, n)) == Server(h, base + n, [])
  {
    if n > 0 {
      CrawlIdles(h, idle, busy, passes, base, laps, n - 1);
      CrawlOnce(h, idle, busy, Crawl(passes, n - 1), base, laps, n - 1);
    }
  }

  /** A timely run that polls as late as it may after the first half. */
  lemma LateStart(h: nat, idle: nat, busy: nat) returns (passes: seq<Pass>)
    requires 0 < idle && 0 < h
    ensures Timely(h, idle, busy, passes) && Run(h, passes) == Server(h, h + idle, [])
  {
    CrawlIdles(h, idle, busy, [], 0, 0, h);
    SmallMod(h, 2 * h);
    AddPass(h, idle, busy, Crawl([], h), Pass(idle, []));
    passes := Crawl([], h) + [Pass(idle, [])];
  }

  /** A send too slow: the first half is overwritten before its first block is read. */
  lemma SlowSend(h: nat, idle: nat, busy: nat)
    requires 0 < idle < h && idle + busy > h
    ensures !Safe(h, idle, busy)
  {
    var passes := LateStart(h, idle, busy);
    SmallMod(h + idle, 2 * h);
    var p := Pass(h - idle + 1, seq(h, _ => 2 * h + 1));
    AddPass(h, idle, busy, passes, p);
    ModOf(h, 1, 0);
    assert Run(h, passes + [p]).client[0] == Holds(h, 2 * h + 1, 0) == 2 * h;
  }

  /** A timely run in which the writer has passed through the second half unnoticed. */
  lemma MissedHalf(h: nat, idle: nat, busy: nat) returns (passes: seq<Pass>)
    requires 2 <= h <= idle
    ensures Timely(h, idle, busy, passes) && Run(h, passes) == Server(h, 3 * h + 1, [])
  {
    var late := LateStart(h, h, busy);
    WiderIdle(h, h, idle, busy, late);
    CrawlIdles(h, idle, busy, late, 2 * h, 1, h);
    CrawlPast(h, idle, busy, Crawl(late, h));
    passes := Crawl(late, h) + [Pass(1, [])];
  }

  lemma CrawlPast(h: nat, idle: nat, busy: nat, passes: seq<Pass>)
    requires h > 0 && idle > 0
    requires Timely(h, idle, busy, passes) && Run(h, passes) == Server(h, 3 * h, [])
    ensures Timely(h, idle, busy, passes + [Pass(1, [])])
    ensures Run(h, passes + [Pass(1, [])]) == Server(h, 3 * h + 1, [])
  {
    ModOf(h, 1, h);
    AddPass(h, idle, busy, passes, Pass(1, []));
  }

  lemma {:induction false} WiderIdle(h: nat, idle: nat, wider: nat, busy: nat, passes: seq<Pass>)
    requires h > 0 && idle <= wider && Timely(h, idle, busy, passes)
    ensures Timely(h, wider, busy, passes)
  {
    if passes != [] { WiderIdle(h, idle, wider, busy, passes[..|passes| - 1]); }
  }

  /** A poll too late: the half that is sent next has been overwritten. */
  lemma LatePoll(h: nat, idle: nat, busy: nat)
    requires 2 <= h <= idle
    ensures !Safe(h, idle, busy)
  {
    var passes := MissedHalf(h, idle, busy);
    ModOf(h, 1, h + 1);
    var p := Pass(0, seq(h, _ => 3 * h + 1));
    AddPass(h, idle, busy, passes, p);
    ModOf(h, 1, h);
    assert Run(h, passes + [p]).client[0] == Holds(h, 3 * h + 1, 0) == 2 * h;
  }

  lemma {:induction false} NoProgressNoSend(h: nat, busy: nat, passes: seq<Pass>)
    requires h > 0 && Timely(h, 0, busy, passes)
    ensures Run(h, passes) == Start(h)
  {
    if passes != [] {
      NoProgressNoSend(h, busy, passes[..|passes| - 1]);
      SmallMod(0, 2 * h);
    }
  }

  /** The protocol is safe exactly under this bound on the writer's speed. */
  lemma TimingIsExact(h: nat, idle: nat, busy: nat)
    requires h >= 2
    ensures Safe(h, idle, busy) <==> idle == 0 || (idle < h && idle + busy <= h)
  {
    if idle == 0 {
      forall passes | Timely(h, idle, busy, passes) ensures InOrder(Run(h, passes).client) {
        NoProgressNoSend(h, busy, passes);
      }
    } else if idle >= h {
      LatePoll(h, idle, busy);
    } else if idle + busy > h {
      SlowSend(h, idle, busy);
    } else {
      forall passes | Timely(h, idle, busy, passes) ensures InOrder(Run(h, passes).client) {
        ClientGetsPrefix(h, idle, busy, passes);
      }
    }
  }
}
