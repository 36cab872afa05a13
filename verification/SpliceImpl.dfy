/**
  The pipe and the splice as objects: each method does its work field by field, with the assertions of
  the original in place, and is proved against the corresponding function of `Splice`.
*/
module SpliceImpl {
  import opened Bytes
  import opened Splice

  /** A pipe with a producer-consumer interface; `scheduled` is the event on its way to whoever asked for output. */
  class PipeProducer {
    var outputBuffer: Bytes
    var outputCallback: bool
    var scheduled: Option<Event>
    var outputEOS: bool
    var error: bool

    ghost predicate Valid()
      reads this
    {
      !(outputCallback && scheduled.Some?)
    }

    ghost function View(): Pipe
      reads this
    {
      Pipe(outputBuffer, outputEOS, error,
           if outputCallback then Asked else if scheduled.Some? then Ready(scheduled.value) else Free)
    }

    constructor ()
      ensures Valid() && View() == NEW_PIPE
    {
      outputBuffer, outputCallback, scheduled, outputEOS, error := [], false, None, false, false;
    }

    /** Schedules an event for a request that the caller holds, if there is anything to say. */
    method OutputDo() returns (done: bool)
      requires Valid() && !outputCallback && scheduled.None? && (error ==> outputBuffer == [])
      modifies this
      ensures Valid() && !outputCallback && done == scheduled.Some?
      ensures Splice.OutputDo(old(View())) == if done then View() else View().(output := Asked)
    {
      if error {
        assert outputBuffer == [];
        scheduled := Some(Event(Error, []));
        return true;
      }
      if outputBuffer != [] {
        scheduled := Some(Event(Done, outputBuffer));
        outputBuffer := [];
        return true;
      }
      if outputEOS {
        scheduled := Some(Event(EOS, []));
        return true;
      }
      return false;
    }

    method Output()
      requires Valid() && View().output.Free? && PipeShape(View())
      modifies this
      ensures Valid() && View() == Splice.OutputDo(old(View()))
    {
      assert !outputCallback && scheduled.None?;
      var done := OutputDo();
      if !done {
        outputCallback := true;
      }
    }

    method OutputCancel()
      requires Valid()
      modifies this
      ensures Valid() && View() == old(View()).(output := Free)
    {
      scheduled := None;
      outputCallback := false;
    }

    /** Hands whatever there is to a request that the pipe holds. */
    method Offer()
      requires Valid() && (error ==> outputBuffer == [])
      modifies this
      ensures Valid() && View() == Splice.Offer(old(View()))
    {
      if outputCallback {
        assert scheduled.None?;
        outputCallback := false;
        var done := OutputDo();
        if !done {
          outputCallback := true;
        }
      }
    }

    method Produce(buf: Bytes)
      requires Valid() && !error && !outputEOS
      modifies this
      ensures Valid() && View() == Splice.Produce(old(View()), buf)
    {
      if buf != [] {
        outputBuffer := outputBuffer + buf;
      } else {
        outputEOS := true;
      }
      Offer();
    }

    method ProduceEOS(buf: Bytes)
      requires Valid() && !error && !outputEOS
      modifies this
      ensures Valid() && View() == Splice.ProduceEOS(old(View()), buf)
    {
      assert outputBuffer + [] == outputBuffer;
      if buf != [] {
        outputBuffer := outputBuffer + buf;
      }
      outputEOS := true;
      Offer();
    }

    method ProduceError()
      requires Valid() && !error && (outputEOS ==> !outputCallback)
      modifies this
      ensures Valid() && View() == Splice.ProduceError(old(View()))
    {
      if outputEOS {
        assert !outputCallback;
        return;
      }
      error := true;
      outputBuffer := [];
      Offer();
    }

    /** What an owner that keeps to the rules may call: it produces data, and then perhaps the end or an error. */
    method Consume(r: Reply)
      requires Valid() && PipeShape(View()) && Proper(View(), r)
      modifies this
      ensures Valid() && View() == Answer(old(View()), r)
    {
      match r.ending
      case Open =>
        if r.data != [] {
          Produce(r.data);
        }
      case Ends => ProduceEOS(r.data);
      case Fails =>
        if r.data != [] {
          ProduceKeeps(View(), r.data);
          Produce(r.data);
        }
        ProduceError();
    }

    /** `r` is what the owner produces when it is given the input. */
    method Input(r: Reply) returns (kind: Kind)
      requires Valid() && PipeShape(View()) && (!error ==> Proper(View(), r))
      modifies this
      ensures Valid() && View() == Feed(old(View()), r)
      ensures kind == if View().error then Error else Done
    {
      if !error {
        Consume(r);
      }
      kind := if error then Error else Done;
    }
  }

  lemma {:induction false} PipeReady(s: State)
    requires Inv(s) && s.pipe.Some?
    ensures PipeShape(s.pipe.value)
  {
  }

  lemma {:induction false} WriteReady(s: State, kind: Kind, n: nat)
    requires Inv(s) && Enabled(s, Write(kind, n))
    ensures Active(s) && !s.shutting
    ensures s.pipe.Some? ==> PipeShape(s.pipe.value) && s.pipe.value.output.Free?
    ensures Inv(Splice.WriteComplete(s, kind, s.writing.value[..n]))
  {
    StepKeeps(s, Write(kind, n));
    assert Do(s, Write(kind, n)) == Splice.WriteComplete(s, kind, s.writing.value[..n]);
    hide Splice.WriteComplete, Do, Conserved;
  }

  class Splicer {
    const pipe: PipeProducer?
    var readEOS: bool
    var readAction: bool
    var inputAction: Option<Kind>
    var outputEOS: bool
    var writeAction: Option<Bytes>
    var shutdownAction: bool
    // Whether there is a callback to complete to, and then whether its report is on its way.
    var callback: bool
    var callbackAction: bool
    // What has been reported, read, produced and taken by the sink.
    var completed: Option<Kind>
    var cut: bool
    var inputs: seq<Bytes>
    var produced: Bytes
    var written: Bytes

    ghost function View(): State
      reads this, pipe
    {
      State(if pipe == null then None else Some(pipe.View()), readEOS, readAction, inputAction, outputEOS, writeAction,
            shutdownAction, completed, !callback && !callbackAction, cut, inputs, produced, written)
    }

    ghost predicate Valid()
      reads this, pipe
    {
      Parts() && Inv(View())
    }

    ghost predicate Parts()
      reads this, pipe
    {
      && (pipe != null ==> pipe.Valid())
      && (callback ==> completed.None? && !callbackAction)
      && (callbackAction ==> completed.Some?)
    }

    constructor Start(pipe: PipeProducer?)
      requires pipe != null ==> pipe.Valid() && pipe.View() == NEW_PIPE
      modifies pipe
      ensures Valid() && this.pipe == pipe && View() == Splice.Start(pipe != null)
    {
      this.pipe := pipe;
      readEOS, inputAction, outputEOS, writeAction, shutdownAction := false, None, false, None, false;
      callback, callbackAction, completed, cut := true, false, None, false;
      inputs, produced, written := [], [], [];
      readAction := true;
      new;
      if pipe != null {
        pipe.Output();
      }
      StartOk(pipe != null);
    }

    method ClearActions()
      requires Parts()
      modifies this`readAction, this`inputAction, this`writeAction, this`shutdownAction, pipe
      ensures Parts() && View() == Clear(old(View()))
    {
      readAction := false;
      inputAction := None;
      if pipe != null {
        pipe.OutputCancel();
      }
      writeAction := None;
      shutdownAction := false;
    }

    method Complete(kind: Kind)
      requires Parts() && callback
      modifies this, pipe
      ensures Parts() && View() == Splice.Complete(old(View()), kind)
    {
      assert !callbackAction;
      ClearActions();
      completed := Some(kind);
      callbackAction := true;
      callback := false;
    }

    /** Calls off whatever is pending, or the report if the splice has completed. */
    method Cancel()
      requires Valid() && Enabled(View(), CancelAll)
      modifies this, pipe
      ensures Valid()
      ensures View() == Splice.Cancel(old(View()))
    {
      hide Inv;
      CancelKeeps(View());
      RestingIsClear(View());
      if callback {
        callback := false;
        assert !callbackAction;
        ClearActions();
      } else {
        assert callbackAction;
        callbackAction := false;
      }
    }

    method ReadComplete(e: Event, r: Reply)
      requires Valid() && Enabled(View(), Read(e, r))
      modifies this, pipe
      ensures Valid()
      ensures View() == Splice.ReadComplete(old(View()), e, r)
    {
      hide Inv, Proper, PipeShape, Splice.ReadData;
      ReadKeeps(View(), e, r);
      if pipe != null {
        PipeReady(View());
      }
      assert !readEOS;
      if e.kind == Error {
        readAction := false;
        Complete(Error);
      } else {
        ReadData(e, r);
      }
    }

    method ReadData(e: Event, r: Reply)
      requires Parts()
      requires !readEOS && inputAction.None? && (pipe == null ==> writeAction.None?)
      requires e.kind != Error && (e.buffer == [] ==> e.kind == EOS)
      requires pipe != null ==> PipeShape(pipe.View()) && (!pipe.error ==> Proper(pipe.View(), r))
      modifies this, pipe
      ensures Parts() && View() == Splice.ReadData(old(View()), e, r)
    {
      hide PipeShape, Proper, Fed;
      readAction := false;
      inputs := inputs + [e.buffer];
      if e.buffer == [] {
        assert e.kind == EOS;
        readEOS := true;
      }
      if pipe != null {
        assert inputAction.None?;
        FeedPipe(r);
      } else {
        if e.kind == EOS && e.buffer == [] {
          shutdownAction := true;
          return;
        }
        assert writeAction.None?;
        writeAction := Some(e.buffer);
      }
    }

    method FeedPipe(r: Reply)
      requires Parts() && pipe != null && PipeShape(pipe.View()) && (!pipe.error ==> Proper(pipe.View(), r))
      modifies this`produced, this`inputAction, pipe
      ensures Parts()
      ensures View() == Fed(old(View()), r)
    {
      hide PipeShape, Proper, Feed;
      if !pipe.error {
        produced := produced + r.data;
      }
      var kind := pipe.Input(r);
      inputAction := Some(kind);
    }

    method InputComplete()
      requires Valid() && Enabled(View(), Input)
      modifies this, pipe
      ensures Valid()
      ensures View() == Splice.InputComplete(old(View()), old(inputAction.value))
    {
      hide Inv;
      InputKeeps(View());
      var kind := inputAction.value;
      inputAction := None;
      if kind != Done {
        Complete(kind);
        return;
      }
      assert !readAction;
      if !readEOS {
        readAction := true;
      } else if outputEOS {
        Complete(EOS);
      }
    }

    method OutputComplete()
      requires Valid() && Enabled(View(), Output)
      modifies this, pipe
      ensures Valid()
      ensures View() == Splice.OutputComplete(old(View()), old(pipe.scheduled.value))
    {
      hide Inv;
      OutputKeeps(View());
      var e := pipe.scheduled.value;
      pipe.OutputCancel();
      if e.kind == Error {
        Complete(Error);
        return;
      }
      if e.kind == EOS && e.buffer == [] {
        shutdownAction := true;
        return;
      }
      assert writeAction.None?;
      writeAction := Some(e.buffer);
    }

    /** `count` bytes reached the sink. */
    method WriteComplete(kind: Kind, count: nat)
      requires Valid() && Enabled(View(), Write(kind, count))
      modifies this, pipe
      ensures Valid()
      ensures View() == Splice.WriteComplete(old(View()), kind, old(writeAction.value)[..count])
    {
      hide Inv, PipeShape, Splice.AfterWrite, Splice.Complete;
      WriteReady(View(), kind, count);
      written := written + writeAction.value[..count];
      writeAction := None;
      cut := cut || kind == EOS;
      assert View() == old(View()).(writing := None, written := written, cut := cut);
      if kind != Done {
        Complete(kind);
      } else {
        AfterWrite();
      }
    }

    method AfterWrite()
      requires Parts() && !shutdownAction
      requires pipe != null ==> PipeShape(pipe.View()) && pipe.View().output.Free?
      modifies this, pipe
      ensures Parts() && View() == Splice.AfterWrite(old(View()))
    {
      hide PipeShape, Splice.OutputDo;
      if pipe != null {
        assert pipe.View().output.Free?;
        pipe.Output();
      } else {
        if readEOS {
          if !shutdownAction {
            shutdownAction := true;
            return;
          }
        } else {
          readAction := true;
        }
      }
    }

    method ShutdownComplete()
      requires Valid() && Enabled(View(), Shutdown)
      modifies this, pipe
      ensures Valid()
      ensures View() == Splice.ShutdownComplete(old(View()))
    {
      hide Inv;
      ShutdownKeeps(View());
      shutdownAction := false;
      if readEOS {
        Complete(EOS);
      } else {
        outputEOS := true;
      }
    }
  }

  /** A splice that is not active has nothing left to call off. */
  lemma {:induction false} RestingIsClear(s: State)
    requires Inv(s)
    ensures !Active(s) ==> Clear(s) == s
  {
    hide Conserved;
  }
}
