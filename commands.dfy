/** The passes the renderer commits to its one Metal command queue, and the
    ping-pong discipline they follow over the pair of height-field buffers.
    The queue executes passes in commit order, so the committed log is the
    history of the simulation. `T` stands for a texture handle. */
module Commands {
  import opened Dispatch
  import opened Droplets

  datatype Primitive = TriangleStrip

  datatype Command<T> =
    | /** The drop kernel adds `droplet` into `target` in place. */
      AddDropPass(target: T, droplet: Droplet, config: ThreadDispatchConfig)
    | /** The wave kernel reads `input` and writes the next step into `output`. */
      MoveWavesPass(input: T, output: T, config: ThreadDispatchConfig)
    | /** The full-screen quad samples `background` and `ripples`. */
      DrawPass(background: T, ripples: T, primitive: Primitive,
               vertexStart: nat, vertexCount: nat, instanceCount: nat)

  /** Number of propagation passes in a log. */
  function MoveCount<T>(log: seq<Command<T>>): nat
  {
    if log == [] then 0
    else MoveCount(log[..|log| - 1]) + (if log[|log| - 1].MoveWavesPass? then 1 else 0)
  }

  /** The active buffer index after a log has been committed, starting from
      buffer 0: every propagation pass flips it, nothing else touches it. */
  function ActiveAfter<T>(log: seq<Command<T>>): (i: nat)
    ensures i <= 1
  {
    if log == [] then 0
    else
      var a := ActiveAfter(log[..|log| - 1]);
      if log[|log| - 1].MoveWavesPass? then 1 - a else a
  }

  /** The active index strictly alternates with propagation passes: after N of
      them, starting from 0, it is N mod 2. */
  lemma {:induction false} ActiveIsParity<T>(log: seq<Command<T>>)
    ensures ActiveAfter(log) == MoveCount(log) % 2
  {
    if log != [] {
      ActiveIsParity(log[..|log| - 1]);
    }
  }

  /** Command `c`, committed while buffer `rain[active]` is active, uses the
      buffers as the ping-pong scheme demands: drops and draws go to the active
      buffer, propagation reads the active one and writes the other. */
  ghost predicate Consistent<T>(c: Command<T>, rain: seq<T>, active: nat)
    requires |rain| == 2 && active <= 1
  {
    match c
    case AddDropPass(target, _, _) => target == rain[active]
    case MoveWavesPass(input, output, _) => input == rain[active] && output == rain[1 - active]
    case DrawPass(_, ripples, _, _, _, _) => ripples == rain[active]
  }

  /** Every command of the log was consistent with the index active when it
      was committed, and the two buffers are distinct. */
  ghost predicate PingPongLog<T>(rain: seq<T>, log: seq<Command<T>>)
  {
    |rain| == 2 && rain[0] != rain[1] &&
    forall k :: 0 <= k < |log| ==> Consistent(log[k], rain, ActiveAfter(log[..k]))
  }

  /** Committing a command consistent with the current index keeps the log a
      ping-pong log. */
  lemma PingPongAppend<T>(rain: seq<T>, log: seq<Command<T>>, c: Command<T>)
    requires PingPongLog(rain, log)
    requires Consistent(c, rain, ActiveAfter(log))
    ensures PingPongLog(rain, log + [c])
  {
    var log' := log + [c];
    forall k | 0 <= k < |log'|
      ensures Consistent(log'[k], rain, ActiveAfter(log'[..k]))
    {
      if k < |log| {
        assert log'[..k] == log[..k];
      } else {
        assert log'[..k] == log;
      }
    }
  }

  /** Committing a propagation pass that reads the active buffer and writes
      the other keeps the log a ping-pong log, flips the active index, and
      keeps it equal to the number of propagation passes mod 2. */
  lemma FlipStep<T>(rain: seq<T>, log: seq<Command<T>>, c: Command<T>)
    requires PingPongLog(rain, log)
    requires c.MoveWavesPass?
    requires c.input == rain[ActiveAfter(log)] && c.output == rain[1 - ActiveAfter(log)]
    ensures PingPongLog(rain, log + [c])
    ensures ActiveAfter(log + [c]) == 1 - ActiveAfter(log)
    ensures ActiveAfter(log + [c]) == MoveCount(log + [c]) % 2
  {
    PingPongAppend(rain, log, c);
    assert (log + [c])[..|log|] == log;
    ActiveIsParity(log + [c]);
  }

  /** Between two positions of a log without a propagation pass the active
      index does not move. */
  lemma {:induction false} ActiveStable<T>(log: seq<Command<T>>, i: nat, j: nat)
    requires i <= j <= |log|
    requires forall k :: i <= k < j ==> !log[k].MoveWavesPass?
    ensures ActiveAfter(log[..i]) == ActiveAfter(log[..j])
    decreases j - i
  {
    if i < j {
      ActiveStable(log, i, j - 1);
      assert log[..j][..j - 1] == log[..j - 1];
    }
  }

  /** A drop committed before a propagation pass, with no other propagation
      pass in between, lands in the buffer that pass reads: the drop is seen
      by the very next wave step. */
  lemma DropVisibleToNextMove<T>(rain: seq<T>, log: seq<Command<T>>, i: nat, j: nat)
    requires PingPongLog(rain, log)
    requires i < j < |log|
    requires log[i].AddDropPass? && log[j].MoveWavesPass?
    requires forall k :: i < k < j ==> !log[k].MoveWavesPass?
    ensures log[j].input == log[i].target
  {
    ActiveStable(log, i, j);
  }

  /** Consecutive propagation passes chain: each reads the buffer the previous
      one wrote. */
  lemma MovesChain<T>(rain: seq<T>, log: seq<Command<T>>, i: nat, j: nat)
    requires PingPongLog(rain, log)
    requires i < j < |log|
    requires log[i].MoveWavesPass? && log[j].MoveWavesPass?
    requires forall k :: i < k < j ==> !log[k].MoveWavesPass?
    ensures log[j].input == log[i].output
  {
    assert log[..i + 1][..i] == log[..i];
    ActiveStable(log, i + 1, j);
  }

  /** A propagation pass never writes the buffer that a draw committed after
      the previous flip samples, and it writes a buffer other than the one it
      reads. */
  lemma MoveSparesDrawnBuffer<T>(rain: seq<T>, log: seq<Command<T>>, i: nat, j: nat)
    requires PingPongLog(rain, log)
    requires i < j < |log|
    requires log[i].DrawPass? && log[j].MoveWavesPass?
    requires forall k :: i < k < j ==> !log[k].MoveWavesPass?
    ensures log[j].output != log[i].ripples
    ensures log[j].output != log[j].input
  {
    ActiveStable(log, i, j);
  }
}
