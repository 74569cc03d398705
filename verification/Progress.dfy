/** How long a connection can go on before it delivers a message: every completion brings
    it nearer, except an empty one in the middle of a message. */
module Progress {
  import opened Bytes
  import opened Frames
  import opened Handshake
  import opened Connection

  /** The completions a connection can still take before it waits for a reply or is lost. */
  function Measure(c: Conn): nat {
    match c.state
    case Handshaking => (if c.exchange <= |Script(c.listener)| then |Script(c.listener)| - c.exchange else 0) + MAX_MESSAGE_SIZE + 3
    case WriteReply => |c.unsent| + MAX_MESSAGE_SIZE + 3
    case ReadHeader => MAX_MESSAGE_SIZE + 2
    case ReadBody => c.need + 1
    case _ => 0
  }

  /** The source reads on after an empty read, as long as the system accepts the next one. */
  predicate Stalls(c: Conn, moved: seq<uint8>, ok: bool) {
    c.state == ReadBody && c.need > 0 && moved == [] && ok
  }

  lemma CompletionAdvances(c: Conn, moved: seq<uint8>, ok: bool)
    requires Inv(c) && Possible(c, moved)
    ensures Measure(DoIoCompletion(c, moved, ok)) < Measure(c) <==> !Stalls(c, moved, ok)
  {
    hide Settled, Safe, Frame, Script, Follows, Output, FromBe32;
  }

  datatype Completion = Completion(moved: seq<uint8>, ok: bool)

  /** A run of completions of one connection, up to where it has nothing outstanding. */
  ghost predicate Consecutive(c: Conn, steps: seq<Completion>)
    requires Inv(c)
    decreases |steps|
  {
    steps != [] ==>
      && Possible(c, steps[0].moved)
      && (StepInv(c, steps[0].moved, steps[0].ok);
          Consecutive(DoIoCompletion(c, steps[0].moved, steps[0].ok), steps[1..]))
  }

  ghost function StallCount(c: Conn, steps: seq<Completion>): nat
    requires Inv(c) && Consecutive(c, steps)
    decreases |steps|
  {
    if steps == [] then 0
    else
      StepInv(c, steps[0].moved, steps[0].ok);
      (if Stalls(c, steps[0].moved, steps[0].ok) then 1 else 0)
      + StallCount(DoIoCompletion(c, steps[0].moved, steps[0].ok), steps[1..])
  }

  lemma StallKeepsMeasure(c: Conn, moved: seq<uint8>, ok: bool)
    requires Inv(c) && Possible(c, moved) && Stalls(c, moved, ok)
    ensures Measure(DoIoCompletion(c, moved, ok)) == Measure(c)
  {
    hide Settled, Safe;
  }

  /** A connection with an operation outstanding waits for a reply or is lost after at most
      `Measure(c)` completions, not counting those that stall. */
  lemma {:induction false} WorkIsBounded(c: Conn, steps: seq<Completion>)
    requires Inv(c) && Consecutive(c, steps)
    ensures |steps| <= Measure(c) + StallCount(c, steps)
    decreases |steps|
  {
    hide Settled, Safe, Possible, DoIoCompletion, Measure, Stalls, Output, Follows, Frame;
    if steps != [] {
      var moved, ok := steps[0].moved, steps[0].ok;
      StepInv(c, moved, ok);
      CompletionAdvances(c, moved, ok);
      if Stalls(c, moved, ok) {
        StallKeepsMeasure(c, moved, ok);
      }
      WorkIsBounded(DoIoCompletion(c, moved, ok), steps[1..]);
    }
  }
}
