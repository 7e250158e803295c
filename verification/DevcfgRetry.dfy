/** When a write to the bitstream driver that failed may be repeated. */
module DevcfgRetry {
  import opened Devcfg
  import opened DevcfgTheorems

  /**
   Repeating a failed write delivers what a write that succeeds at once would have
   delivered: the same words, and the driver is left in the same state.
   */
  predicate RetryDelivers(s: Driver, buf: seq<Byte>, cause: Outcome) {
    var once, failed := AfterWrite(s, buf, Sent), AfterWrite(s, buf, cause);
    var again := AfterWrite(failed, buf, Sent);
    && again.issued == failed.issued + once.issued[|s.issued|..]
    && again.residue == once.residue && again.swap == once.swap && again.pos == once.pos
  }

  predicate EndsWith(k: seq<Byte>, end: seq<Byte>) { |end| <= |k| && k[|k| - |end|..] == end }

  /** No sync word begins in the first n bytes of k. */
  predicate NoSyncBefore(k: seq<Byte>, n: nat)
    requires n + 4 <= |k|
  {
    forall j | 0 <= j < n :: !SyncAt(k, j)
  }

  /** The part of the bytes from i on that comes from the stragglers r. */
  function Carried(r: seq<Byte>, i: nat): seq<Byte> { if i <= |r| then r[i..] else [] }

  /**
   What a caller has to look for before repeating a write whose transfer failed.  The failed
   call has put new stragglers in front of the buffer.  In a first block with a header,
   those are left out again if no sync word begins in them before the one that was found.
   In every other block they must be the old ones.
   */
  predicate RetrySafe(s: Driver, buf: seq<Byte>) {
    var k := s.residue + buf;
    if s.pos == 0 && HasHeader(k) then
      var i := HeaderOf(k).length;
      var left, carried := Stragglers(k[i..]), Carried(s.residue, i);
      EndsWith(left, carried) && NoSyncBefore(left + buf, |left| - |carried|)
    else |buf| % 4 == 0 && EndsWith(k, s.residue)
  }

  /** A write that fails before the transfer can always be repeated; any other exactly if `RetrySafe` holds. */
  lemma RetryIff(s: Driver, buf: seq<Byte>, cause: Outcome)
    requires !cause.Sent? && |s.residue| < 4
    ensures RetryDelivers(s, buf, cause) <==> cause.Early() || RetrySafe(s, buf)
  {
    if !cause.Early() {
      RetryMeans(s, buf, cause);
      var k := s.residue + buf;
      if s.pos > 0 { RetryOfLater(s, buf); }
      else if HasHeader(k) { RetryOfHeader(s, buf); }
      else { RetryWithoutHeader(s, buf); }
    }
  }

  /** The bytes of a write that are sent or kept, old stragglers in front. */
  function Payload(s: Driver, buf: seq<Byte>): seq<Byte> {
    (s.residue + buf)[EffectiveHeader(s, s.residue + buf).length..]
  }

  /** The state after a transfer that failed. */
  function Failed(s: Driver, buf: seq<Byte>): Driver { AfterWrite(s, buf, TimedOut) }

  /** The same bytes, in the same order. */
  predicate SamePayload(s: Driver, buf: seq<Byte>) {
    var t := Failed(s, buf);
    && Payload(t, buf) == Payload(s, buf)
    && EffectiveHeader(t, t.residue + buf).swap == EffectiveHeader(s, s.residue + buf).swap
  }

  lemma RetryMeans(s: Driver, buf: seq<Byte>, cause: Outcome)
    requires cause.TimedOut? || cause.TransferFailed?
    ensures RetryDelivers(s, buf, cause) <==> SamePayload(s, buf)
  {
    var failed := Failed(s, buf);
    assert AfterWrite(s, buf, cause) == failed;
    WriteSends(s, buf);
    WriteSends(failed, buf);
    SameBytes(failed.issued, AfterWrite(failed, buf, Sent).swap, Payload(failed, buf),
              AfterWrite(s, buf, Sent).swap, Payload(s, buf));
  }

  lemma WriteSends(s: Driver, buf: seq<Byte>)
    ensures var r, x := AfterWrite(s, buf, Sent), Payload(s, buf);
      && r.swap == EffectiveHeader(s, s.residue + buf).swap && r.residue == Stragglers(x) && r.pos == s.pos + |buf|
      && r.issued == s.issued + Ordered(r.swap, Whole(x)) && r.issued[|s.issued|..] == Ordered(r.swap, Whole(x))
  {
    SameTail(s.issued, Ordered(AfterWrite(s, buf, Sent).swap, Whole(Payload(s, buf))));
  }

  lemma SameTail(before: seq<Byte>, sent: seq<Byte>)
    ensures (before + sent)[|before|..] == sent
  {
  }

  lemma SameBytes(before: seq<Byte>, swapY: bool, y: seq<Byte>, swapX: bool, x: seq<Byte>)
    ensures y == x && swapY == swapX <==>
      before + Ordered(swapY, Whole(y)) == before + Ordered(swapX, Whole(x)) && Stragglers(y) == Stragglers(x) && swapY == swapX
  {
    SameTail(before, Ordered(swapY, Whole(y)));
    SameTail(before, Ordered(swapX, Whole(x)));
    if swapY == swapX && Ordered(swapY, Whole(y)) == Ordered(swapX, Whole(x)) {
      OrderedInjective(swapX, x, y);
      WholeAndStragglers(x);
      WholeAndStragglers(y);
    }
  }

  lemma EndsAlike(r: seq<Byte>, t: seq<Byte>, buf: seq<Byte>)
    ensures t + buf == r + buf <==> t == r
  {
    if t + buf == r + buf {
      assert t == (t + buf)[..|t|] && r == (r + buf)[..|r|];
    }
  }

  lemma SameStragglers(r: seq<Byte>, buf: seq<Byte>)
    requires |r| < 4
    ensures Stragglers(r + buf) == r <==> |buf| % 4 == 0 && EndsWith(r + buf, r)
  {
  }

  lemma RetryOfLater(s: Driver, buf: seq<Byte>)
    requires s.pos > 0 && |s.residue| < 4
    ensures SamePayload(s, buf) <==> RetrySafe(s, buf)
  {
    var r, t := s.residue, Failed(s, buf).residue;
    assert (r + buf)[0..] == r + buf && (t + buf)[0..] == t + buf;
    EndsAlike(r, t, buf);
    SameStragglers(r, buf);
  }

  lemma RetryWithoutHeader(s: Driver, buf: seq<Byte>)
    requires s.pos == 0 && |s.residue| < 4 && !HasHeader(s.residue + buf)
    ensures SamePayload(s, buf) <==> RetrySafe(s, buf)
  {
    var r, t := s.residue, Failed(s, buf).residue;
    assert (r + buf)[0..] == r + buf && (t + buf)[0..] == t + buf;
    EndsAlike(r, t, buf);
    SameStragglers(r, buf);
    if HasHeader(t + buf) { FoundStarts(t + buf); }
  }

  /** What is left after a header starts with a sync word, so it has a header itself. */
  lemma FoundStarts(k: seq<Byte>)
    requires HasHeader(k)
    ensures HasHeader(k[HeaderOf(k).length..])
  {
    var i := HeaderOf(k).length;
    assert k[i..][..4] == k[i..i + 4];
    assert SyncAt(k[i..], 0);
  }

  /** The header ends at the first sync word, wherever that is looked for. */
  lemma FoundAt(k: seq<Byte>, i: nat)
    requires i + 4 < |k| && SyncAt(k, i) && NoSyncBefore(k, i)
    ensures HasHeader(k) && HeaderOf(k) == Header(i, SwappedSync(k, i))
  {
  }

  lemma RetryOfHeader(s: Driver, buf: seq<Byte>)
    requires s.pos == 0 && HasHeader(s.residue + buf)
    ensures SamePayload(s, buf) <==> RetrySafe(s, buf)
  {
    var r, k := s.residue, s.residue + buf;
    var i := HeaderOf(k).length;
    var data, left := k[i..], Stragglers(k[i..]);
    var carried, m := Carried(r, i), left + buf;
    assert Failed(s, buf).residue == left;
    if RetrySafe(s, buf) {
      RetryFinds(r, buf, i, left);
    } else if SamePayload(s, buf) {
      FoundStarts(k);
      RetryFound(r, buf, i, left);
    }
  }

  /** If the stragglers end as they should and hide no sync word, the same one is found. */
  lemma RetryFinds(r: seq<Byte>, buf: seq<Byte>, i: nat, left: seq<Byte>)
    requires var k := r + buf;
      HasHeader(k) && i == HeaderOf(k).length
    requires var carried := Carried(r, i);
      EndsWith(left, carried) && NoSyncBefore(left + buf, |left| - |carried|)
    ensures var k, m := r + buf, left + buf;
      && HasHeader(m) && HeaderOf(m).swap == HeaderOf(k).swap && m[HeaderOf(m).length..] == k[i..]
  {
    var k, m := r + buf, left + buf;
    var carried := Carried(r, i);
    var j := |m| - |k[i..]|;
    assert j == if i <= |r| then |left| - |carried| else |left| + (i - |r|);
    assert m[j..] == k[i..];
    SameSync(k, i, m, j);
    forall x | 0 <= x < j ensures !SyncAt(m, x) {
      if x >= |left| {
        var y := x - |left| + |r|;
        assert m[x..x + 4] == buf[x - |left|..x - |left| + 4] == k[y..y + 4];
        SameSyncWord(m, x, k, y);
        assert y < FindFrom(k, 0) && !SyncAt(k, y);
      } else {
        assert x < |left| - |Carried(r, i)|;
      }
    }
    FoundAt(m, j);
  }

  lemma SameSyncWord(k: seq<Byte>, i: nat, m: seq<Byte>, j: nat)
    requires i + 4 <= |k| && j + 4 <= |m| && k[i..i + 4] == m[j..j + 4]
    ensures NormalSync(k, i) <==> NormalSync(m, j)
    ensures SwappedSync(k, i) <==> SwappedSync(m, j)
  {
    var v, w := k[i..i + 4], m[j..j + 4];
    assert v[0] == k[i] && v[1] == k[i + 1] && v[2] == k[i + 2] && v[3] == k[i + 3];
    assert w[0] == m[j] && w[1] == m[j + 1] && w[2] == m[j + 2] && w[3] == m[j + 3];
  }

  lemma SameSync(k: seq<Byte>, i: nat, m: seq<Byte>, j: nat)
    requires i + 4 <= |k| && j <= |m| && k[i..] == m[j..]
    ensures j + 4 <= |m|
    ensures NormalSync(k, i) <==> NormalSync(m, j)
    ensures SwappedSync(k, i) <==> SwappedSync(m, j)
  {
    assert k[i..][..4] == k[i..i + 4] && m[j..][..4] == m[j..j + 4];
    SameSyncWord(k, i, m, j);
  }

  /** If the repeated write finds the same bytes, the stragglers end as they should and hide no sync word. */
  lemma RetryFound(r: seq<Byte>, buf: seq<Byte>, i: nat, left: seq<Byte>)
    requires i <= |r + buf| && HasHeader(left + buf) && (left + buf)[HeaderOf(left + buf).length..] == (r + buf)[i..]
    ensures var carried := Carried(r, i);
      EndsWith(left, carried) && NoSyncBefore(left + buf, |left| - |carried|)
  {
    var k, m := r + buf, left + buf;
    var j := HeaderOf(m).length;
    if i <= |r| {
      assert k[i..] == r[i..] + buf;
      assert m[j..] == r[i..] + buf;
      assert j + |r[i..]| == |left|;
      assert left[j..] == m[j..][..|r[i..]|] == r[i..];
    }
  }

  /**
   Repeating a first write can be right although the stragglers have changed: six bytes
   behind the sync word leave two, which the repeated write takes for header.
   */
  lemma RetryWithNewStragglers(buf: seq<Byte>)
    requires buf == [0x66, 0x55, 0x99, 0xAA, 1, 2, 3, 4, 5, 6]
    ensures Failed(OPENED, buf).residue == [5, 6] && RetryDelivers(OPENED, buf, TimedOut)
  {
    StartsAtSync(buf);
    FewLeft(buf);
    assert RetrySafe(OPENED, buf);
    RetryIff(OPENED, buf, TimedOut);
  }

  lemma StartsAtSync(buf: seq<Byte>)
    requires |buf| > 4 && SyncAt(buf, 0)
    ensures OPENED.residue + buf == buf && HasHeader(buf) && HeaderOf(buf).length == 0
    ensures buf[0..] == buf && Failed(OPENED, buf).residue == Stragglers(buf)
  {
    FoundAt(buf, 0);
    assert OPENED.residue + buf == buf && buf[0..] == buf;
  }

  lemma FewLeft(buf: seq<Byte>)
    requires buf == [0x66, 0x55, 0x99, 0xAA, 1, 2, 3, 4, 5, 6]
    ensures Stragglers(buf) == [5, 6] && NoSyncBefore([5, 6] + buf, 2)
  {
    assert ([5, 6] + buf)[0] == 5 && ([5, 6] + buf)[1] == 6;
  }

  /** It can also be wrong: here the straggler makes a sync word of what the buffer starts with. */
  lemma RetryMissesHeader(buf: seq<Byte>)
    requires buf == [0x99, 0x55, 0x66, 0xAA, 0x99, 0x55, 0x66, 1, 2, 3, 4, 0xAA]
    ensures !RetryDelivers(OPENED, buf, TimedOut)
  {
    SecondSync(buf);
    assert !RetrySafe(OPENED, buf);
    RetryIff(OPENED, buf, TimedOut);
  }

  lemma SecondSync(buf: seq<Byte>)
    requires buf == [0x99, 0x55, 0x66, 0xAA, 0x99, 0x55, 0x66, 1, 2, 3, 4, 0xAA]
    ensures OPENED.residue + buf == buf && HasHeader(buf) && HeaderOf(buf).length == 3
    ensures Stragglers(buf[3..]) == [0xAA] && SyncAt([0xAA] + buf, 0)
  {
    assert !SyncAt(buf, 0) && !SyncAt(buf, 1) && !SyncAt(buf, 2) && SyncAt(buf, 3);
    FoundAt(buf, 3);
    LastByte(buf[3..], 0xAA);
  }

  lemma LastByte(k: seq<Byte>, b: Byte)
    requires |k| == 9 && k[8] == b
    ensures Stragglers(k) == [b]
  {
  }

  /** After the first write, a single byte that is sent again is sent twice. */
  lemma RetryDoublesByte(s: Driver)
    requires s.pos > 0 && s.residue == []
    ensures !RetryDelivers(s, [7], TransferFailed)
  {
    RetryIff(s, [7], TransferFailed);
  }
}
