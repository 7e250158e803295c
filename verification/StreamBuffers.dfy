/** The registered stream buffers that the AXI hub is built from, and the queues they implement. */
module StreamBuffers {

  /** output_buffer: one register between producer and consumer. */
  datatype OutputBuffer<T> = OutputBuffer(valid: bool, data: T) {
    predicate Accepts(outReady: bool) { !valid || outReady }

    function Clock(inValid: bool, inData: T, outReady: bool): OutputBuffer<T> {
      if Accepts(outReady) then OutputBuffer(inValid, inData) else this
    }

    function Contents(): seq<T> { if valid then [data] else [] }
  }

  /** input_buffer: a skid register that takes over when the consumer stalls. */
  datatype InputBuffer<T> = InputBuffer(ready: bool, data: T) {
    predicate OutValid(inValid: bool) { !ready || inValid }

    function OutData(inData: T): T { if ready then inData else data }

    function Clock(inValid: bool, inData: T, outReady: bool): InputBuffer<T> {
      InputBuffer(if OutValid(inValid) then outReady else ready, if ready then inData else data)
    }

    function Contents(): seq<T> { if ready then [] else [data] }
  }

  /** inout_buffer: an input buffer feeding an output buffer. */
  datatype InoutBuffer<T> = InoutBuffer(front: InputBuffer<T>, back: OutputBuffer<T>) {
    predicate InReady() { front.ready }

    predicate OutValid() { back.valid }

    function OutData(): T { back.data }

    function Clock(inValid: bool, inData: T, outReady: bool): InoutBuffer<T> {
      var ready := back.Accepts(outReady);
      InoutBuffer(front.Clock(inValid, inData, ready),
                  back.Clock(front.OutValid(inValid), front.OutData(inData), outReady))
    }

    function Contents(): seq<T> { back.Contents() + front.Contents() }

    predicate Empty() { front.ready && !back.valid }
  }

  /** A queue: the head leaves if the consumer takes it, the new element joins if it is accepted. */
  function Queue<T>(q: seq<T>, pop: bool, push: bool, x: T): seq<T>
    requires pop ==> q != []
  {
    (if pop then q[1..] else q) + if push then [x] else []
  }

  lemma OutputIsQueue<T>(b: OutputBuffer<T>, inValid: bool, inData: T, outReady: bool)
    ensures b.Clock(inValid, inData, outReady).Contents() ==
      Queue(b.Contents(), b.valid && outReady, inValid && b.Accepts(outReady), inData)
  {
  }

  /** The pair of buffers is a queue of two: nothing is lost, repeated or reordered, whoever stalls. */
  lemma InoutIsQueue<T>(b: InoutBuffer<T>, inValid: bool, inData: T, outReady: bool)
    ensures b.OutValid() ==> b.Contents() != [] && b.OutData() == b.Contents()[0]
    ensures b.Clock(inValid, inData, outReady).Contents() ==
      Queue(b.Contents(), b.OutValid() && outReady, inValid && b.InReady(), inData)
    ensures |b.Contents()| <= 2
  {
  }

  /** What was delivered, then what the buffer holds, is what was handed to it. */
  lemma Delivers<T>(b: OutputBuffer<T>, inValid: bool, inData: T, outReady: bool, delivered: seq<T>, pushed: seq<T>)
    requires delivered + b.Contents() == pushed
    ensures delivered + (if b.valid && outReady then [b.data] else []) + b.Clock(inValid, inData, outReady).Contents()
      == pushed + if inValid && b.Accepts(outReady) then [inData] else []
  {
    OutputIsQueue(b, inValid, inData, outReady);
  }

  /** What was accepted and not yet taken is what the buffer holds. */
  lemma Accepts<T>(b: InoutBuffer<T>, inValid: bool, inData: T, outReady: bool, accepted: seq<T>, taken: nat)
    requires taken <= |accepted| && accepted[taken..] == b.Contents()
    ensures var more := if inValid && b.InReady() then [inData] else [];
      var taken' := taken + if b.OutValid() && outReady then 1 else 0;
      && taken' <= |accepted|
      && (accepted + more)[taken'..] == b.Clock(inValid, inData, outReady).Contents()
    ensures b.OutValid() ==> taken < |accepted| && accepted[taken] == b.OutData()
  {
    InoutIsQueue(b, inValid, inData, outReady);
    var more := if inValid && b.InReady() then [inData] else [];
    if b.OutValid() {
      assert accepted[taken] == accepted[taken..][0];
      assert (accepted + more)[taken + 1..] == accepted[taken..][1..] + more;
    }
    assert (accepted + more)[taken..] == accepted[taken..] + more;
  }
}
