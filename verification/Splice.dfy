/**
  A splice moves data from a source channel through a pipe, or directly, to a sink channel. This
  module says what each completion handler does; what arrives when is up to the environment, and so
  is what the owner of the pipe produces, and when.
*/
module Splice {
  import opened Bytes

  // --- Events and pipes -----------------------------------------------------------------------------------

  datatype Kind = Done | EOS | Error

  datatype Event = Event(kind: Kind, buffer: Bytes)

  /** How the owner of a pipe follows up the data that it produces. */
  datatype Ending = Open | Ends | Fails

  /** Everything the owner produces at one go: some data, then perhaps the end or an error. */
  datatype Reply = Reply(data: Bytes, ending: Ending)

  /** How `PipeNull` answers an input. */
  function Echo(b: Bytes): Reply {
    if b == [] then Reply([], Ends) else Reply(b, Open)
  }

  /** A request for output: none, one that the pipe holds on to, or one whose event is on its way. */
  datatype Output = Free | Asked | Ready(event: Event)

  datatype Pipe = Pipe(buffer: Bytes, eos: bool, error: bool, output: Output)

  const NEW_PIPE := Pipe([], false, false, Free)

  /** `output_do`, for a request that the pipe has. */
  function OutputDo(p: Pipe): Pipe {
    if p.error then p.(output := Ready(Event(Error, [])))
    else if p.buffer != [] then p.(buffer := [], output := Ready(Event(Done, p.buffer)))
    else if p.eos then p.(output := Ready(Event(EOS, [])))
    else p.(output := Asked)
  }

  function Offer(p: Pipe): Pipe {
    if p.output.Asked? then OutputDo(p) else p
  }

  function Produce(p: Pipe, data: Bytes): Pipe {
    Offer(if data != [] then p.(buffer := p.buffer + data) else p.(eos := true))
  }

  function ProduceEOS(p: Pipe, data: Bytes): Pipe {
    Offer(p.(buffer := p.buffer + data, eos := true))
  }

  function ProduceError(p: Pipe): Pipe {
    if p.eos then p else Offer(p.(error := true, buffer := []))
  }

  /** What the owner's calls do to the pipe. */
  function Answer(p: Pipe, r: Reply): Pipe {
    match r.ending
    case Open => if r.data == [] then p else Produce(p, r.data)
    case Ends => ProduceEOS(p, r.data)
    case Fails => ProduceError(if r.data == [] then p else Produce(p, r.data))
  }

  /**
    The assertions in `produce` and `produce_eos` allow nothing after an error, and after the end only an
    error, which is ignored.
  */
  predicate Proper(p: Pipe, r: Reply) {
    !p.error && (p.eos ==> r.data == [] && !r.ending.Ends?)
  }

  /** `input`: a pipe that has failed swallows whatever it is given. */
  function Feed(p: Pipe, r: Reply): Pipe {
    if p.error then p else Answer(p, r)
  }

  // --- The splice -------------------------------------------------------------------------------------------

  /**
    `reading`, `input`, `writing`, `shutting` and the pipe's `output` are the pending actions. `result` is
    what completion has reported. `inputs` is what has been read, `produced` what the owner of the pipe has
    produced, and `written` what the sink has; `cut` says that a write reported the end of the stream.
  */
  datatype State = State(
    pipe: Option<Pipe>,
    readEOS: bool,
    reading: bool,
    input: Option<Kind>,
    outputEOS: bool,
    writing: Option<Bytes>,
    shutting: bool,
    result: Option<Kind>,
    cancelled: bool,
    cut: bool,
    inputs: seq<Bytes>,
    produced: Bytes,
    written: Bytes)

  function CancelOutput(p: Option<Pipe>): Option<Pipe> {
    if p.Some? then Some(p.value.(output := Free)) else p
  }

  function Start(piped: bool): State {
    State(if piped then Some(OutputDo(NEW_PIPE)) else None, false, true, None, false, None, false, None, false, false, [], [], [])
  }

  /** Nothing is pending any more. */
  function Clear(s: State): State {
    s.(pipe := CancelOutput(s.pipe), reading := false, input := None, writing := None, shutting := false)
  }

  function Complete(s: State, kind: Kind): State {
    Clear(s).(result := Some(kind))
  }

  /** `cancel`: everything that is pending, or the report of the completion, is called off. */
  function Cancel(s: State): State {
    Clear(s).(cancelled := true)
  }

  /** The pipe is given an input, and its owner answers with `r`. */
  function Fed(s: State, r: Reply): State
    requires s.pipe.Some?
  {
    var p := Feed(s.pipe.value, r);
    s.(pipe := Some(p), input := Some(if p.error then Error else Done),
       produced := if s.pipe.value.error then s.produced else s.produced + r.data)
  }

  function ReadData(s: State, e: Event, r: Reply): State {
    var s1 := s.(reading := false, inputs := s.inputs + [e.buffer], readEOS := s.readEOS || e.buffer == []);
    if s.pipe.Some? then Fed(s1, r)
    else if e.kind.EOS? && e.buffer == [] then s1.(shutting := true)
    else s1.(writing := Some(e.buffer))
  }

  function ReadComplete(s: State, e: Event, r: Reply): State {
    if e.kind.Error? then Complete(s.(reading := false), Error) else ReadData(s, e, r)
  }

  /** The owner of the pipe produces something of its own accord. */
  function ProduceMore(s: State, r: Reply): State
    requires s.pipe.Some?
  {
    s.(pipe := Some(Answer(s.pipe.value, r)), produced := s.produced + r.data)
  }

  function InputComplete(s: State, kind: Kind): State {
    var s1 := s.(input := None);
    if !kind.Done? then Complete(s1, kind)
    else if !s.readEOS then s1.(reading := true)
    else if s.outputEOS then Complete(s1, EOS)
    else s1
  }

  function OutputComplete(s: State, e: Event): State {
    if e.kind.Error? then Complete(s, Error)
    else
      var s1 := s.(pipe := CancelOutput(s.pipe));
      if e.kind.EOS? && e.buffer == [] then s1.(shutting := true)
      else s1.(writing := Some(e.buffer))
  }

  /** `taken` bytes of the buffer reached the sink: all of them, if the write reports success. */
  function WriteComplete(s: State, kind: Kind, taken: Bytes): State {
    var s1 := s.(writing := None, written := s.written + taken, cut := s.cut || kind.EOS?);
    if !kind.Done? then Complete(s1, kind) else AfterWrite(s1)
  }

  /** What follows a write that succeeded. */
  function AfterWrite(s: State): State {
    if s.pipe.Some? then s.(pipe := Some(OutputDo(s.pipe.value)))
    else if s.readEOS then s.(shutting := true)
    else s.(reading := true)
  }

  function ShutdownComplete(s: State): State {
    var s1 := s.(shutting := false);
    if s.readEOS then Complete(s1, EOS) else s1.(outputEOS := true)
  }

  // --- Steps ------------------------------------------------------------------------------------------------

  datatype Step =
    | Read(event: Event, reply: Reply)
    | Input
    | Output
    | Write(kind: Kind, count: nat)
    | Shutdown
    | Owner(reply: Reply)
    | CancelAll

  /**
    Whatever is pending may complete. A channel reads no bytes only at the end of the stream, and a write
    that succeeds takes everything. The owner of the pipe may produce at any time.
  */
  predicate Enabled(s: State, step: Step) {
    match step
    case Read(e, r) =>
      && s.reading && (e.buffer == [] ==> !e.kind.Done?)
      && (s.pipe.Some? && !s.pipe.value.error ==> Proper(s.pipe.value, r))
    case Input => s.input.Some?
    case Output => s.pipe.Some? && s.pipe.value.output.Ready?
    case Write(kind, n) => s.writing.Some? && n <= |s.writing.value| && (kind.Done? ==> n == |s.writing.value|)
    case Shutdown => s.shutting
    case Owner(r) => s.pipe.Some? && Proper(s.pipe.value, r)
    case CancelAll => !s.cancelled
  }

  function Do(s: State, step: Step): State
    requires Enabled(s, step)
  {
    match step
    case Read(e, r) => ReadComplete(s, e, r)
    case Input => InputComplete(s, s.input.value)
    case Output => OutputComplete(s, s.pipe.value.output.event)
    case Write(kind, n) => WriteComplete(s, kind, s.writing.value[..n])
    case Shutdown => ShutdownComplete(s)
    case Owner(r) => ProduceMore(s, r)
    case CancelAll => Cancel(s)
  }

  ghost predicate IsRun(ss: seq<State>, steps: seq<Step>) {
    && |ss| == |steps| + 1
    && (exists piped :: ss[0] == Start(piped))
    && forall i :: 0 <= i < |steps| ==> Enabled(ss[i], steps[i]) && ss[i + 1] == Do(ss[i], steps[i])
  }

  // --- The invariant ------------------------------------------------------------------------------------------

  /** What the pipe holds: the data in an event on its way, and the data yet to be asked for. */
  function Held(p: Pipe): Bytes {
    (if p.output.Ready? then p.output.event.buffer else []) + p.buffer
  }

  /** The bytes between the pipe's owner and the sink. */
  function Underway(s: State): Bytes {
    (if s.writing.Some? then s.writing.value else []) + (if s.pipe.Some? then Held(s.pipe.value) else [])
  }

  /** What the sink is owed: what the owner of the pipe produced, or without a pipe what was read. */
  function Owed(s: State): Bytes {
    if s.pipe.Some? then s.produced else Flatten(s.inputs)
  }

  /** The splice has neither completed nor been cancelled. */
  predicate Active(s: State) {
    s.result.None? && !s.cancelled
  }

  predicate Broken(s: State) {
    s.pipe.Some? && s.pipe.value.error
  }

  /** At most one of reading and feeding, and at most one of asking, writing and shutting down. */
  predicate Exclusive(s: State) {
    && !(s.reading && s.input.Some?)
    && !(s.writing.Some? && s.shutting)
    && (s.pipe.Some? && !s.pipe.value.output.Free? ==> s.writing.None? && !s.shutting)
    && (s.pipe.None? ==> s.input.None? && !(s.reading && (s.writing.Some? || s.shutting)))
  }

  predicate Resting(s: State) {
    && !s.reading && s.input.None? && s.writing.None? && !s.shutting
    && (s.pipe.Some? ==> s.pipe.value.output.Free?)
  }

  ghost predicate ReadOk(s: State) {
    && (s.readEOS <==> s.inputs != [] && s.inputs[|s.inputs| - 1] == [])
    && (s.reading ==> !s.readEOS)
  }

  /** What the fields of the pipe say about each other. */
  predicate PipeShape(p: Pipe) {
    && (p.error ==> p.buffer == [] && !p.eos)
    && (p.output.Asked? ==> p.buffer == [] && !p.eos && !p.error)
    && (p.output.Ready? ==> ReadyOk(p, p.output.event))
  }

  predicate ReadyOk(p: Pipe, e: Event) {
    match e.kind
    case Done => e.buffer != []
    case EOS => e.buffer == [] && p.buffer == [] && p.eos
    case Error => e.buffer == [] && p.error
  }

  ghost predicate PipedOk(s: State, p: Pipe) {
    && (s.shutting || s.outputEOS ==> p.eos && p.buffer == [])
    && (s.outputEOS ==> p.output.Free? && s.writing.None? && !s.shutting)
    && (s.outputEOS && s.readEOS && Active(s) ==> s.input.Some?)
    && (s.input.Some? ==> s.input.value.Done? || (s.input.value.Error? && p.error))
    && (Active(s) ==> !p.output.Free? || s.writing.Some? || s.shutting || s.outputEOS)
    && (Active(s) ==> s.reading || s.input.Some? || s.readEOS)
  }

  ghost predicate DirectOk(s: State) {
    && !s.outputEOS
    && (Active(s) ==> s.reading || s.writing.Some? || s.shutting)
    && (s.shutting ==> s.readEOS)
    && (s.writing.Some? ==> !s.readEOS)
  }

  /** Nothing is lost, added or reordered on the way to the sink. */
  ghost predicate Conserved(s: State) {
    && s.written <= Owed(s)
    && (Active(s) ==> s.written + Underway(s) <= Owed(s))
    && (Active(s) && !Broken(s) ==> s.written + Underway(s) == Owed(s))
    && (s.result == Some(EOS) && !s.cut ==> s.readEOS && s.written == Owed(s) && (s.pipe.Some? ==> s.pipe.value.eos))
  }

  ghost predicate Inv(s: State) {
    && Exclusive(s)
    && ReadOk(s)
    && (!Active(s) ==> Resting(s))
    && (s.cut ==> !Active(s))
    && (s.pipe.Some? ==> PipeShape(s.pipe.value) && PipedOk(s, s.pipe.value))
    && (s.pipe.None? ==> DirectOk(s))
    && Conserved(s)
  }

  // --- The pipe -----------------------------------------------------------------------------------------------

  lemma {:induction false} OutputDoKeeps(p: Pipe)
    requires PipeShape(p) && p.output.Free?
    ensures PipeShape(OutputDo(p)) && Held(OutputDo(p)) == Held(p)
    ensures !OutputDo(p).output.Free? && OutputDo(p).error == p.error && OutputDo(p).eos == p.eos
  {
  }

  lemma {:induction false} ProduceKeeps(p: Pipe, data: Bytes)
    requires PipeShape(p) && !p.error && !p.eos && data != []
    ensures PipeShape(Produce(p, data)) && !Produce(p, data).error && !Produce(p, data).eos
    ensures Held(Produce(p, data)) == Held(p) + data
    ensures Produce(p, data).output.Free? == p.output.Free?
  {
    if p.output.Ready? {
      assert p.output.event.buffer + (p.buffer + data) == p.output.event.buffer + p.buffer + data;
    }
  }

  lemma {:induction false} ProduceEOSKeeps(p: Pipe, data: Bytes)
    requires PipeShape(p) && !p.error && !p.eos
    ensures PipeShape(ProduceEOS(p, data)) && !ProduceEOS(p, data).error && ProduceEOS(p, data).eos
    ensures Held(ProduceEOS(p, data)) == Held(p) + data
    ensures ProduceEOS(p, data).output.Free? == p.output.Free?
  {
    if p.output.Ready? {
      assert p.output.event.buffer + (p.buffer + data) == p.output.event.buffer + p.buffer + data;
    }
  }

  lemma {:induction false} ProduceErrorKeeps(p: Pipe)
    requires PipeShape(p) && !p.error && !p.eos
    ensures PipeShape(ProduceError(p)) && ProduceError(p).error
    ensures Held(ProduceError(p)) <= Held(p)
    ensures ProduceError(p).output.Free? == p.output.Free?
  {
  }

  lemma {:induction false} AnswerShape(p: Pipe, r: Reply)
    requires PipeShape(p) && !p.error && !p.eos
    ensures PipeShape(Answer(p, r)) && Answer(p, r).error == r.ending.Fails? && Answer(p, r).eos == r.ending.Ends?
    ensures !r.ending.Fails? ==> Held(Answer(p, r)) == Held(p) + r.data
    ensures Held(Answer(p, r)) <= Held(p) + r.data
    ensures Answer(p, r).output.Free? == p.output.Free?
  {
    hide Produce, ProduceEOS, ProduceError;
    match r.ending
    case Open =>
      if r.data == [] {
        assert Held(p) + r.data == Held(p);
      } else {
        ProduceKeeps(p, r.data);
      }
    case Ends => ProduceEOSKeeps(p, r.data);
    case Fails =>
      if r.data == [] {
        assert Held(p) + r.data == Held(p);
        ProduceErrorKeeps(p);
      } else {
        ProduceKeeps(p, r.data);
        ProduceErrorKeeps(Produce(p, r.data));
      }
  }

  /** The pipe holds what it held and what was produced, unless that failed. */
  lemma {:induction false} AnswerKeeps(p: Pipe, r: Reply)
    requires PipeShape(p) && Proper(p, r)
    ensures PipeShape(Answer(p, r))
    ensures !Answer(p, r).error ==> Held(Answer(p, r)) == Held(p) + r.data
    ensures Held(Answer(p, r)) <= Held(p) + r.data
    ensures Answer(p, r).output.Free? == p.output.Free?
    ensures if p.eos then Answer(p, r) == p else Answer(p, r).eos == r.ending.Ends? && Answer(p, r).error == r.ending.Fails?
  {
    if p.eos {
      assert Held(p) + [] == Held(p);
    } else {
      AnswerShape(p, r);
      hide Answer, PipeShape;
    }
  }

  lemma {:induction false} FeedKeeps(p: Pipe, r: Reply)
    requires PipeShape(p) && (!p.error ==> Proper(p, r))
    ensures PipeShape(Feed(p, r))
    ensures p.error ==> Feed(p, r) == p
    ensures !p.error ==> Held(Feed(p, r)) <= Held(p) + r.data
    ensures !p.error && !Feed(p, r).error ==> Held(Feed(p, r)) == Held(p) + r.data
    ensures Feed(p, r).output.Free? == p.output.Free?
    ensures p.eos ==> Feed(p, r) == p
  {
    hide Answer, Held;
    if !p.error {
      AnswerKeeps(p, r);
    }
  }

  // --- Every step keeps the invariant ---------------------------------------------------------------------------

  lemma {:induction false} FlattenSnoc(inputs: seq<Bytes>, b: Bytes)
    ensures Flatten(inputs + [b]) == Flatten(inputs) + b
  {
    if inputs == [] {
      assert inputs + [b] == [b];
      assert [b][1..] == [];
      assert Flatten([b]) == b + Flatten([]);
    } else {
      assert (inputs + [b])[1..] == inputs[1..] + [b];
      FlattenSnoc(inputs[1..], b);
    }
  }

  lemma {:induction false} CompleteKeeps(s: State, kind: Kind)
    requires Active(s) && (s.readEOS <==> s.inputs != [] && s.inputs[|s.inputs| - 1] == [])
    requires s.pipe.Some? ==> PipeShape(s.pipe.value) && (s.outputEOS ==> s.pipe.value.eos && s.pipe.value.buffer == [])
    requires s.pipe.None? ==> !s.outputEOS
    requires s.written <= Owed(s)
    requires kind.EOS? && !s.cut ==> s.readEOS && s.written == Owed(s) && (s.pipe.Some? ==> s.pipe.value.eos)
    ensures Inv(Complete(s, kind))
  {
    hide Flatten;
  }

  lemma {:induction false} CancelKeeps(s: State)
    requires Inv(s) && !s.cancelled
    ensures Inv(Cancel(s))
  {
    hide Flatten;
  }

  lemma {:induction false} InputKeeps(s: State)
    requires Inv(s) && s.input.Some?
    ensures Active(s) && !s.reading
    ensures Inv(InputComplete(s, s.input.value))
  {
    hide Flatten;
    var s1 := s.(input := None);
    if !s.input.value.Done? {
      CompleteKeeps(s1, Error);
    } else if s.readEOS && s.outputEOS {
      assert Underway(s) == [];
      CompleteKeeps(s1, EOS);
    }
  }

  /** Moving bytes towards the sink keeps them all. */
  lemma {:induction false} MovesConserve(s: State, s': State)
    requires Conserved(s) && Active(s) && Active(s')
    requires s'.inputs == s.inputs && s'.produced == s.produced && s.pipe.Some? == s'.pipe.Some?
    requires s.pipe.Some? ==> s'.pipe.value.error == s.pipe.value.error
    requires s'.written + Underway(s') == s.written + Underway(s)
    ensures Conserved(s')
  {
    hide Flatten, Underway;
    assert Owed(s') == Owed(s);
    assert s'.written <= s'.written + Underway(s');
  }

  lemma {:induction false} OutputMoves(s: State, e: Event)
    requires s.pipe.Some? && s.pipe.value.output == Ready(e) && s.writing.None? && !e.kind.Error?
    requires e.kind.EOS? ==> e.buffer == []
    ensures Underway(OutputComplete(s, e)) == Underway(s)
  {
  }

  lemma {:induction false} OutputKeeps(s: State)
    requires Inv(s) && s.pipe.Some? && s.pipe.value.output.Ready?
    ensures Active(s) && s.writing.None? && !s.shutting
    ensures Inv(OutputComplete(s, s.pipe.value.output.event))
  {
    hide Flatten, Underway;
    var e := s.pipe.value.output.event;
    if e.kind.Error? {
      CompleteKeeps(s, Error);
    } else {
      OutputMoves(s, e);
      MovesConserve(s, OutputComplete(s, e));
      hide Conserved, Owed;
    }
  }

  lemma {:induction false} ShutdownKeeps(s: State)
    requires Inv(s) && s.shutting
    ensures Active(s)
    ensures Inv(ShutdownComplete(s))
  {
    hide Flatten;
    assert Underway(s) == [] && s.written == Owed(s) by {
      assert s.written + [] == s.written;
    }
    var s1 := s.(shutting := false);
    if s.readEOS {
      CompleteKeeps(s1, EOS);
    } else {
      var s2 := s1.(outputEOS := true);
      assert Underway(s2) == [] && Owed(s2) == Owed(s);
      assert Conserved(s2) by {
        assert s.written + [] == s.written;
      }
    }
  }

  lemma {:induction false} WriteFails(s: State, kind: Kind, n: nat)
    requires Inv(s) && Enabled(s, Write(kind, n)) && !kind.Done?
    ensures Inv(WriteComplete(s, kind, s.writing.value[..n]))
  {
    hide Flatten, PipeShape;
    var b := s.writing.value;
    PartWritten(s, n);
    var s1 := s.(writing := None, written := s.written + b[..n], cut := s.cut || kind.EOS?);
    assert Owed(s1) == Owed(s);
    hide Underway, Held, Owed;
    CompleteKeeps(s1, kind);
  }

  lemma {:induction false} PartWritten(s: State, n: nat)
    requires s.writing.Some? && n <= |s.writing.value| && s.written + Underway(s) <= Owed(s)
    ensures s.written + s.writing.value[..n] <= Owed(s)
  {
    hide Owed, Held;
    var b := s.writing.value;
    var rest := if s.pipe.Some? then Held(s.pipe.value) else [];
    assert b == b[..n] + b[n..];
    assert s.written + Underway(s) == (s.written + b[..n]) + (b[n..] + rest);
  }

  lemma {:induction false} WriteMoves(s: State)
    requires Inv(s) && s.writing.Some?
    ensures Active(s)
    ensures s.pipe.Some? ==> s.pipe.value.output.Free?
    ensures var s' := WriteComplete(s, Done, s.writing.value); s'.written + Underway(s') == s.written + Underway(s)
  {
    hide Flatten, Conserved, ReadOk;
    var b, s' := s.writing.value, WriteComplete(s, Done, s.writing.value);
    if s.pipe.Some? {
      OutputDoKeeps(s.pipe.value);
      hide OutputDo;
      assert Underway(s) == b + Held(s.pipe.value) && Underway(s') == Held(s.pipe.value);
    }
  }

  lemma {:induction false} WriteKeeps(s: State)
    requires Inv(s) && s.writing.Some?
    ensures Inv(WriteComplete(s, Done, s.writing.value))
  {
    hide Flatten, Underway, PipeShape, OutputDo, Owed;
    var s' := WriteComplete(s, Done, s.writing.value);
    WriteMoves(s);
    if s.pipe.Some? {
      OutputDoKeeps(s.pipe.value);
      WriteLeaves(s);
      MovesConserve(s, s');
      hide Conserved, PipedOk, Exclusive;
    } else {
      MovesConserve(s, s');
      hide Conserved;
    }
  }

  lemma {:induction false} WriteLeaves(s: State)
    requires Inv(s) && s.writing.Some? && s.pipe.Some?
    ensures var s' := WriteComplete(s, Done, s.writing.value);
            Exclusive(s') && PipedOk(s', s'.pipe.value) && Active(s')
  {
    hide Flatten, Conserved, ReadOk;
  }

  lemma {:induction false} ReadDirect(s: State, e: Event, r: Reply)
    requires Inv(s) && Enabled(s, Read(e, r)) && s.pipe.None? && !e.kind.Error?
    ensures Inv(ReadComplete(s, e, r))
  {
    hide Conserved;
    ReadConserves(s, e, r);
    ReadOnce(s, ReadComplete(s, e, r), e.buffer);
    hide ReadOk;
  }

  lemma {:induction false} ReadConserves(s: State, e: Event, r: Reply)
    requires s.pipe.None? && s.writing.None? && s.result.None? && Conserved(s) && !e.kind.Error?
    ensures Conserved(ReadComplete(s, e, r))
  {
    var s' := ReadComplete(s, e, r);
    FlattenSnoc(s.inputs, e.buffer);
    hide Flatten;
    assert s'.written + Underway(s') == s.written + e.buffer;
    assert Owed(s') == Owed(s) + e.buffer;
    assert s.written + Underway(s) == s.written;
    hide ReadComplete, ReadData, Underway, Owed;
    PrefixGrows(s.written, Owed(s), e.buffer);
  }

  lemma {:induction false} ReadPiped(s: State, e: Event, r: Reply)
    requires Inv(s) && Enabled(s, Read(e, r)) && s.pipe.Some? && !e.kind.Error?
    ensures Inv(ReadComplete(s, e, r))
  {
    hide Flatten, Owed, PipeShape, Feed, Proper;
    var s' := ReadComplete(s, e, r);
    ReadOnce(s, s', e.buffer);
    FeedKeeps(s.pipe.value, r);
    FeedConserves(s, s', r);
    ReadLeaves(s, s');
    hide ReadComplete, PipedOk, Conserved, ReadOk;
  }

  lemma {:induction false} ReadLeaves(s: State, s': State)
    requires s.pipe.Some? && PipedOk(s, s.pipe.value) && s'.pipe.Some? && s.reading && Active(s)
    requires s' == s.(reading := false, pipe := s'.pipe, inputs := s'.inputs, readEOS := s'.readEOS, produced := s'.produced,
                      input := Some(if s'.pipe.value.error then Error else Done))
    requires s'.pipe.value.output.Free? == s.pipe.value.output.Free?
    requires s.pipe.value.eos ==> s'.pipe == s.pipe
    ensures PipedOk(s', s'.pipe.value)
  {
  }

  lemma {:induction false} ReadOnce(s: State, s': State, b: Bytes)
    requires ReadOk(s) && s.reading
    requires s'.inputs == s.inputs + [b] && s'.readEOS == (s.readEOS || b == []) && !s'.reading
    ensures ReadOk(s')
  {
  }

  /** What the owner produces is owed, and held by the pipe until it is asked for. */
  lemma {:induction false} FeedConserves(s: State, s': State, r: Reply)
    requires s.pipe.Some? && PipeShape(s.pipe.value) && (!s.pipe.value.error ==> Proper(s.pipe.value, r))
    requires s'.pipe == Some(Feed(s.pipe.value, r)) && s'.written == s.written && s'.writing == s.writing
    requires s'.produced == (if s.pipe.value.error then s.produced else s.produced + r.data)
    requires s'.result == s.result && s'.cancelled == s.cancelled && s'.cut == s.cut && Conserved(s)
    requires Active(s) || s'.readEOS == s.readEOS
    ensures Conserved(s')
  {
    FeedKeeps(s.pipe.value, r);
    var w := if s.writing.Some? then s.writing.value else [];
    var h, h' := Held(s.pipe.value), Held(s'.pipe.value);
    assert Underway(s) == w + h && Underway(s') == w + h';
    hide Underway, Held, Feed, PipeShape;
    if s.pipe.value.eos && !s.pipe.value.error {
      assert s.produced + [] == s.produced;
    }
    if !s.pipe.value.error {
      PrefixGrows(s.written, s.produced, r.data);
      HeldExtends(s.written, w, h, h', r.data);
    }
  }

  lemma {:induction false} PrefixGrows(a: Bytes, b: Bytes, c: Bytes)
    requires a <= b
    ensures a <= b + c
  {
    assert a == (b + c)[..|a|];
  }

  lemma {:induction false} HeldExtends(written: Bytes, w: Bytes, held: Bytes, held': Bytes, data: Bytes)
    requires held' <= held + data
    ensures written + (w + held') <= written + (w + held) + data
    ensures held' == held + data ==> written + (w + held') == written + (w + held) + data
    ensures written <= written + (w + held) + data
  {
    var all := written + (w + held) + data;
    assert all == written + (w + (held + data));
    assert written + (w + held') == all[..|written| + |w| + |held'|];
  }

  lemma {:induction false} ReadKeeps(s: State, e: Event, r: Reply)
    requires Inv(s) && Enabled(s, Read(e, r))
    ensures Active(s) && !s.readEOS && s.input.None? && (s.pipe.None? ==> s.writing.None?)
    ensures Inv(ReadComplete(s, e, r))
  {
    if e.kind.Error? {
      CompleteKeeps(s.(reading := false), Error);
    } else if s.pipe.Some? {
      ReadPiped(s, e, r);
    } else {
      ReadDirect(s, e, r);
    }
  }

  lemma {:induction false} OwnerKeeps(s: State, r: Reply)
    requires Inv(s) && Enabled(s, Owner(r))
    ensures Inv(ProduceMore(s, r))
  {
    hide Flatten, PipeShape, Answer, Owed;
    var s' := ProduceMore(s, r);
    AnswerKeeps(s.pipe.value, r);
    OwnerLeaves(s, s');
    assert s'.pipe == Some(Feed(s.pipe.value, r));
    FeedConserves(s, s', r);
    hide Conserved, PipedOk, ReadOk;
  }

  lemma {:induction false} OwnerLeaves(s: State, s': State)
    requires s.pipe.Some? && PipedOk(s, s.pipe.value) && s'.pipe.Some?
    requires s' == s.(pipe := s'.pipe, produced := s'.produced)
    requires s'.pipe.value.output.Free? == s.pipe.value.output.Free?
    requires s.pipe.value.eos ==> s'.pipe == s.pipe
    requires s.pipe.value.error ==> s'.pipe.value.error
    ensures PipedOk(s', s'.pipe.value)
  {
  }

  lemma {:induction false} StepKeeps(s: State, step: Step)
    requires Inv(s) && Enabled(s, step)
    ensures Inv(Do(s, step))
  {
    match step
    case Read(e, r) => ReadKeeps(s, e, r);
    case Input => InputKeeps(s);
    case Output => OutputKeeps(s);
    case Write(kind, n) =>
      if kind.Done? {
        assert s.writing.value[..n] == s.writing.value;
        hide Inv, WriteComplete;
        WriteKeeps(s);
      } else {
        WriteFails(s, kind, n);
      }
    case Shutdown => ShutdownKeeps(s);
    case Owner(r) => OwnerKeeps(s, r);
    case CancelAll => CancelKeeps(s);
  }

  lemma {:induction false} StartOk(piped: bool)
    ensures Inv(Start(piped))
  {
  }

  lemma {:induction false} RunKeeps(ss: seq<State>, steps: seq<Step>, k: nat)
    requires IsRun(ss, steps) && k < |ss|
    ensures Inv(ss[k])
  {
    hide Inv, Enabled, Do, Start;
    if k == 0 {
      var piped :| ss[0] == Start(piped);
      StartOk(piped);
    } else {
      RunKeeps(ss, steps, k - 1);
      StepKeeps(ss[k - 1], steps[k - 1]);
    }
  }

  // --- What every run promises --------------------------------------------------------------------------------------

  predicate IsCompletion(step: Step) {
    !step.Owner? && !step.CancelAll?
  }

  /** The handlers' own assertions, and that completion is reported at most once and never after a cancel. */
  predicate AssertionsHold(s: State, step: Step)
    requires Enabled(s, step) && IsCompletion(step)
  {
    && Active(s)
    && match step
       case Read(_, _) => !s.readEOS && s.input.None? && (s.pipe.None? ==> s.writing.None?)
       case Input => !s.reading
       case Output => s.writing.None? && !s.shutting
       case Write(_, _) => s.pipe.Some? ==> s.pipe.value.output.Free?
       case Shutdown => true
  }

  ghost predicate Safe(s: State) {
    && Exclusive(s)
    && s.written <= Owed(s)
    && (s.result == Some(EOS) && !s.cut ==> s.readEOS && s.written == Owed(s))
    && forall step :: Enabled(s, step) && IsCompletion(step) ==> AssertionsHold(s, step)
  }

  lemma {:induction false} InvIsSafe(s: State)
    requires Inv(s)
    ensures Safe(s)
  {
    hide Flatten;
  }

  /** Whatever the channels and the owner of the pipe do, the sink gets what it is owed, in order, and all of it if the splice reports the end. */
  lemma {:induction false} EveryRunIsSafe(ss: seq<State>, steps: seq<Step>)
    requires IsRun(ss, steps)
    ensures forall k :: 0 <= k < |ss| ==> Safe(ss[k])
  {
    hide Inv, Safe, Enabled, Do;
    forall k | 0 <= k < |ss|
      ensures Safe(ss[k])
    {
      RunKeeps(ss, steps, k);
      InvIsSafe(ss[k]);
    }
  }

  // --- The pass-through pipe ----------------------------------------------------------------------------------------------

  /** The owner of the pipe only ever passes on what is fed to the pipe. */
  predicate Echoes(step: Step) {
    match step
    case Read(e, r) => r == Echo(e.buffer)
    case Owner(_) => false
    case _ => true
  }

  ghost predicate EchoOk(s: State) {
    s.pipe.Some? ==> s.produced == Flatten(s.inputs) && !s.pipe.value.error && s.pipe.value.eos == s.readEOS
  }

  lemma {:induction false} EchoReads(s: State, e: Event)
    requires s.pipe.Some? && PipeShape(s.pipe.value) && EchoOk(s) && !s.readEOS
    ensures EchoOk(ReadData(s, e, Echo(e.buffer)))
  {
    FlattenSnoc(s.inputs, e.buffer);
    AnswerKeeps(s.pipe.value, Echo(e.buffer));
    hide Flatten, Answer, PipeShape;
  }

  /** Nothing was read or produced, and the pipe has neither ended nor failed. */
  ghost predicate Undisturbed(s: State, s': State) {
    && s'.inputs == s.inputs && s'.produced == s.produced && s'.readEOS == s.readEOS
    && s'.pipe.Some? == s.pipe.Some?
    && (s.pipe.Some? ==> s'.pipe.value.error == s.pipe.value.error && s'.pipe.value.eos == s.pipe.value.eos)
  }

  lemma {:induction false} ReadErrorStays(s: State, e: Event, r: Reply)
    requires e.kind.Error?
    ensures Undisturbed(s, ReadComplete(s, e, r))
  {
  }

  lemma {:induction false} InputStays(s: State, kind: Kind)
    ensures Undisturbed(s, InputComplete(s, kind))
  {
  }

  lemma {:induction false} OutputStays(s: State, e: Event)
    requires s.pipe.Some?
    ensures Undisturbed(s, OutputComplete(s, e))
  {
    assert CancelOutput(s.pipe) == Some(s.pipe.value.(output := Free));
    hide CancelOutput;
  }

  lemma {:induction false} WriteStays(s: State, kind: Kind, taken: Bytes)
    ensures Undisturbed(s, WriteComplete(s, kind, taken))
  {
  }

  lemma {:induction false} ShutdownStays(s: State)
    ensures Undisturbed(s, ShutdownComplete(s))
  {
  }

  lemma {:induction false} EchoKeeps(s: State, step: Step)
    requires Inv(s) && EchoOk(s) && Enabled(s, step) && Echoes(step)
    ensures EchoOk(Do(s, step))
  {
    hide Inv, Flatten, ReadData, ReadComplete, InputComplete, OutputComplete, WriteComplete, ShutdownComplete;
    match step
    case Read(e, r) =>
      if e.kind.Error? {
        ReadErrorStays(s, e, r);
      } else {
        EchoTakes(s, e);
      }
    case Input => InputStays(s, s.input.value);
    case Output => OutputStays(s, s.pipe.value.output.event);
    case Write(kind, n) => WriteStays(s, kind, s.writing.value[..n]);
    case Shutdown => ShutdownStays(s);
    case CancelAll =>
  }

  lemma {:induction false} EchoTakes(s: State, e: Event)
    requires Inv(s) && EchoOk(s) && s.reading && !e.kind.Error?
    ensures EchoOk(ReadComplete(s, e, Echo(e.buffer)))
  {
    hide Flatten, Conserved;
    if s.pipe.Some? {
      EchoReads(s, e);
      hide ReadData;
    }
  }

  lemma {:induction false} EchoRun(ss: seq<State>, steps: seq<Step>, k: nat)
    requires IsRun(ss, steps) && k < |ss| && forall i :: 0 <= i < k ==> Echoes(steps[i])
    ensures EchoOk(ss[k])
  {
    hide Inv, Enabled, Do, Echoes;
    if k > 0 {
      EchoRun(ss, steps, k - 1);
      RunKeeps(ss, steps, k - 1);
      EchoKeeps(ss[k - 1], steps[k - 1]);
    }
  }

  /** With no pipe or the pass-through pipe, what is written is a prefix of what was read, and at the end it is all of it. */
  lemma {:induction false} SpliceConserves(ss: seq<State>, steps: seq<Step>, k: nat)
    requires IsRun(ss, steps) && k < |ss| && forall i :: 0 <= i < k ==> Echoes(steps[i])
    ensures ss[k].written <= Flatten(ss[k].inputs)
    ensures ss[k].result == Some(EOS) && !ss[k].cut ==> ss[k].readEOS && ss[k].written == Flatten(ss[k].inputs)
  {
    EveryRunIsSafe(ss, steps);
    EchoRun(ss, steps, k);
    assert Safe(ss[k]);
    hide Exclusive, Enabled, AssertionsHold, Flatten, IsRun;
  }

  /**
    A write that reports the end of the stream makes the splice report it as well. Everything owed has
    been written exactly if that write took all it was given and the pipe held nothing more.
  */
  lemma {:induction false} CutExactly(s: State, n: nat)
    requires Inv(s) && Enabled(s, Write(EOS, n)) && !Broken(s)
    ensures var s' := Do(s, Write(EOS, n));
            && s'.result == Some(EOS) && s'.cut
            && (s'.written == Owed(s') <==>
                n == |s.writing.value| && (s.pipe.Some? ==> Held(s.pipe.value) == []))
  {
    hide Flatten, Held;
    var b := s.writing.value;
    var rest := if s.pipe.Some? then Held(s.pipe.value) else [];
    assert Active(s) && Underway(s) == b + rest;
    assert Owed(s) == s.written + (b + rest);
    assert |Owed(s)| == |s.written| + |b| + |rest|;
    if n == |b| && rest == [] {
      assert b[..n] == b && b + [] == b;
    }
  }

  /** Such a write, with nothing written. */
  lemma {:induction false} CutLosesData()
    ensures var s1 := Do(Start(false), Read(Event(Done, [7]), Reply([], Open)));
            && Enabled(s1, Write(EOS, 0))
            && var s2 := Do(s1, Write(EOS, 0));
               s2.result == Some(EOS) && s2.cut && s2.written != Owed(s2)
  {
    FlattenSnoc([], [7]);
    assert [] + [[7]] == [[7]];
  }

  // --- A splice stops short only for its pipe ---------------------------------------------------------------------------

  ghost predicate Stuck(s: State) {
    Active(s) && forall step :: IsCompletion(step) ==> !Enabled(s, step)
  }

  /** The pipe was told of the end of the stream, gave out all it had, and has not ended its own output. */
  predicate AwaitsPipe(s: State) {
    && Active(s) && s.readEOS && s.input.None?
    && s.pipe.Some? && s.pipe.value.output.Asked?
    && s.written == s.produced && !s.pipe.value.eos
  }

  lemma {:induction false} StuckExactly(s: State)
    requires Inv(s)
    ensures Stuck(s) <==> AwaitsPipe(s)
  {
    hide Flatten;
    assert s.writing.Some? ==> Enabled(s, Write(Done, |s.writing.value|));
    if Stuck(s) {
      assert !Enabled(s, Read(Event(EOS, []), Reply([], Open)));
      assert !Enabled(s, Input) && !Enabled(s, Output) && !Enabled(s, Shutdown);
      assert s.written + Underway(s) == s.written;
    }
  }

  /** Without a pipe, or with the pass-through pipe, there is always something left to complete until the splice has. */
  lemma {:induction false} NeverStuck(ss: seq<State>, steps: seq<Step>, k: nat)
    requires IsRun(ss, steps) && k < |ss| && forall i :: 0 <= i < k ==> Echoes(steps[i])
    ensures !Stuck(ss[k])
  {
    RunKeeps(ss, steps, k);
    EchoRun(ss, steps, k);
    StuckExactly(ss[k]);
    hide Stuck, Inv, IsRun;
  }

  // --- What a splice reports ------------------------------------------------------------------------------------------------

  /** The step completes with an error. */
  predicate Fails(s: State, step: Step) {
    match step
    case Read(e, _) => e.kind.Error?
    case Input => s.input == Some(Error)
    case Output => s.pipe.Some? && s.pipe.value.output.Ready? && s.pipe.value.output.event.kind.Error?
    case Write(kind, _) => kind.Error?
    case _ => false
  }

  /** The step completes the last that was left to do, or is a write that reports the end. */
  predicate Finishes(s: State, step: Step) {
    match step
    case Input => s.input == Some(Done) && s.readEOS && s.outputEOS
    case Write(kind, _) => kind.EOS?
    case Shutdown => s.readEOS
    case _ => false
  }

  lemma {:induction false} ResultOfStep(s: State, step: Step)
    requires Inv(s) && Enabled(s, step)
    ensures IsCompletion(step) ==> Active(s)
    ensures IsCompletion(step) ==>
              Do(s, step).result == if Fails(s, step) then Some(Error) else if Finishes(s, step) then Some(EOS) else None
    ensures !IsCompletion(step) ==> Do(s, step).result == s.result
  {
    hide Conserved, Flatten, ReadOk, PipeShape, Feed, OutputDo, Answer;
  }

  /** A splice has reported an error exactly if a step has completed with one, and the end exactly if a step has ended it. */
  lemma {:induction false} ReportsExactly(ss: seq<State>, steps: seq<Step>, n: nat)
    requires IsRun(ss, steps) && n < |ss|
    ensures ss[n].result == Some(Error) <==> exists k :: 0 <= k < n && IsCompletion(steps[k]) && Fails(ss[k], steps[k])
    ensures ss[n].result == Some(EOS) <==>
            exists k :: 0 <= k < n && IsCompletion(steps[k]) && !Fails(ss[k], steps[k]) && Finishes(ss[k], steps[k])
    ensures ss[n].result != Some(Done)
  {
    hide Inv, Enabled, Do, Fails, Finishes, IsCompletion;
    if n > 0 {
      ReportsExactly(ss, steps, n - 1);
      RunKeeps(ss, steps, n - 1);
      ResultOfStep(ss[n - 1], steps[n - 1]);
    }
  }
}
