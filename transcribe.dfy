/** The transcriber component: a listening flag, the accumulated and
    partial transcript buffers, and the voice SDK handlers it attaches,
    updated in place by its public calls and its SDK and host callbacks. */
module Transcribe {
  import opened Punctuation
  import opened Session

  class Transcriber {
    /** Whether a transcription session is running. */
    var active: bool
    /** The text finalised so far in this session. */
    var fullTranscribe: string
    /** The latest in-progress utterance, not yet final. */
    var partialTranscribe: string
    /** How many times the final, error and partial handlers are attached
        to the SDK's notification lists. */
    var subscriptions: nat

    /** The fragments finalised since the last activation, in order. */
    ghost var finals: seq<string>
    /** Everything emitted so far: published texts, finished reports and
        the requests made of the SDK. */
    ghost var trace: seq<Event>

    /** The transcriber's state as a value. */
    ghost function Snapshot(): State
      reads this
    {
      State(active, fullTranscribe, partialTranscribe, subscriptions, finals)
    }

    /** The handlers are attached while listening. That the accumulated
        text is the merge of the finalised fragments is proved of the
        step functions these methods are tied to (Session.RunPreservesValid). */
    ghost predicate Valid()
      reads this
    {
      Attached(Snapshot())
    }

    /** A transcriber that has not been activated yet. */
    constructor ()
      ensures Valid() && Snapshot() == Initial && trace == []
    {
      active := false;
      fullTranscribe := "";
      partialTranscribe := "";
      subscriptions := 0;
      finals := [];
      trace := [];
    }

    /** Start a transcription session unless one is running. */
    method Activate()
      requires Valid()
      modifies this
      ensures Valid()
      ensures Snapshot() == Session.Activate(old(Snapshot())).state
      ensures trace == old(trace) + Session.Activate(old(Snapshot())).events
    {
      if active {
        return;
      }
      fullTranscribe := "";
      partialTranscribe := "";
      finals := [];
      active := true;
      // the final-transcript, error and partial-transcript handlers
      subscriptions := subscriptions + 1;
      trace := trace + [SdkStart];
    }

    /** End the transcription session, if one is running. */
    method Deactivate()
      requires Valid()
      modifies this
      ensures Valid()
      ensures Snapshot() == Session.Deactivate(old(Snapshot())).state
      ensures trace == old(trace) + Session.Deactivate(old(Snapshot())).events
    {
      if !active {
        return;
      }
      active := false;
      trace := trace + [SdkStop];
    }

    /** Handler for a final transcript from the SDK. */
    method OnFullTranscript(fragment: string)
      requires Valid()
      modifies this
      ensures Valid()
      ensures Snapshot() == FullTranscript(old(Snapshot()), fragment).state
      ensures trace == old(trace) + FullTranscript(old(Snapshot()), fragment).events
    {
      // what the handler must arrive at, worked out before any field changes
      ghost var merged := Merge(fullTranscribe, fragment);
      ghost var target := FullTranscript(Snapshot(), fragment);
      assert target.state == State(active, merged, "", if active then subscriptions else 0, finals + [fragment]);
      assert target.events == if active then [SdkRestartNow, Update(merged)] else [Update(merged), Finished(merged)] by {
        assert merged + "" == merged;
      }
      if active {
        trace := trace + [SdkRestartNow];
      }
      if !IsNullOrWhiteSpace(fullTranscribe) && !IsNullOrWhiteSpace(fragment) {
        if EndsWithPunctuation(fullTranscribe) {
          fullTranscribe := fullTranscribe + " ";
        } else {
          fullTranscribe := fullTranscribe + ". ";
        }
      }
      fullTranscribe := fullTranscribe + fragment;
      assert fullTranscribe == merged;
      finals := finals + [fragment];
      partialTranscribe := "";
      UpdateText();
      if active {
        return;
      }
      subscriptions := 0;
      trace := trace + [Finished(fullTranscribe)];
    }

    /** Handler for a partial transcript from the SDK. */
    method OnPartialTranscript(fragment: string)
      requires Valid()
      modifies this
      ensures Valid()
      ensures Snapshot() == PartialTranscript(old(Snapshot()), fragment).state
      ensures trace == old(trace) + PartialTranscript(old(Snapshot()), fragment).events
    {
      partialTranscribe := fragment;
      UpdateText();
    }

    /** Publish the running text: accumulated followed by partial. */
    method UpdateText()
      modifies this`trace
      ensures trace == old(trace) + [Update(fullTranscribe + partialTranscribe)]
    {
      trace := trace + [Update(fullTranscribe + partialTranscribe)];
    }

    /** Handler for an SDK error; the error code and message only go to the
        log. */
    method OnError(code: string, message: string)
      requires Valid()
      modifies this
      ensures Valid()
      ensures Snapshot() == Error(old(Snapshot())).state
      ensures trace == old(trace) + Error(old(Snapshot())).events
    {
      ghost var stopped := Session.Deactivate(Snapshot());
      Deactivate();
      ghost var flushed := FullTranscript(stopped.state, stopped.state.partial);
      OnFullTranscript(partialTranscribe);
      assert trace == old(trace) + stopped.events + flushed.events;
    }

    /** Handler for the host gaining (`focus`) or losing focus. */
    method OnApplicationFocus(focus: bool)
      requires Valid()
      modifies this
      ensures Valid()
      ensures Snapshot() == ApplicationFocus(old(Snapshot()), focus).state
      ensures trace == old(trace) + ApplicationFocus(old(Snapshot()), focus).events
    {
      if active && !focus {
        ghost var stopped := Session.Deactivate(Snapshot());
        Deactivate();
        ghost var flushed := FullTranscript(stopped.state, stopped.state.partial);
        OnFullTranscript(partialTranscribe);
        assert trace == old(trace) + stopped.events + flushed.events;
      }
    }
  }
}
