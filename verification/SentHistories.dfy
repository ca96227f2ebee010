/** What every history sent to the API in a turn announces: the delta step of the turn
    (internal/conversation/deferred_tools_delta.go) seen from its sends (internal/conversation/run.go). */
module SentHistories {
  import opened Text
  import opened Conversation
  import Deltas = DeferredTools
  import Turns = Turn

  /** The turn announces the delta for the pool `defs`; nothing while tool search is off. */
  ghost predicate AnnouncesPool(o: Turns.Outside, defs: seq<ToolDefinition>, on: bool) {
    forall h :: Announcement(o, defs, on, h)
  }

  ghost predicate Announcement(o: Turns.Outside, defs: seq<ToolDefinition>, on: bool, h: seq<Message>) {
    if !on || Deltas.DeltaFor(defs, h) == None then o.delta(h) == None
    else o.delta(h).Some? && Deltas.Announces(o.delta(h).value, Deltas.DeltaFor(defs, h).value)
  }

  /** What the model and the tools say carries no announcement. */
  ghost predicate RepliesAnnounceNothing(o: Turns.Outside) {
    forall r :: var answer := Turns.Answer(o.replies(r));
      answer.Some? ==> !answer.value.message.note.DeferredDelta?
                       && forall m | m in answer.value.toolMessages :: !m.note.DeferredDelta?
  }

  /** The log as appendMessage leaves it below the new message: the last id filled in. */
  function Named(history: seq<Message>, lastId: Id): seq<Message> {
    if history == [] then []
    else
      var last := history[|history| - 1];
      history[..|history| - 1] + [if last.uuid == "" then last.(uuid := lastId) else last]
  }

  lemma NamingAnnouncesNothing(history: seq<Message>, lastId: Id)
    ensures Deltas.Announced(Named(history, lastId)) == Deltas.Announced(history)
  {
    if history != [] {
      var front, last := history[..|history| - 1], history[|history| - 1];
      assert history == front + [last];
      Deltas.ReplaySnoc(front, last);
      Deltas.ReplaySnoc(front, Named(history, lastId)[|history| - 1]);
    }
  }

  /** Appending replays just the new message. */
  lemma AppendReplays(history: seq<Message>, m: Message, id: Id, lastId: Id)
    ensures var after := Turns.Appended(history, m, id, lastId);
      after.0 == Named(history, lastId) + [after.1] && after.1.note == m.note
      && Deltas.Announced(after.0) == Deltas.ReplayOne(Deltas.Announced(history), m)
  {
    var after := Turns.Appended(history, m, id, lastId);
    if history == [] {
      assert [] + [after.1] == [after.1];
    }
    NamingAnnouncesNothing(history, lastId);
    Deltas.ReplaySnoc(Named(history, lastId), after.1);
  }

  lemma AnnouncedIsSettled(defs: seq<ToolDefinition>, l: Turns.Log, o: Turns.Outside)
    requires AnnouncesPool(o, defs, true)
    ensures Deltas.Settled(defs, Turns.Announced(l, o).history) <==> Deltas.TrimmedNames(defs)
  {
    var m := o.delta(l.history);
    var id, lastId := o.newID(l.issued), o.newID(l.issued + 1);
    var named, after := Named(l.history, lastId), Turns.Announced(l, o).history;
    assert after == if m.None? then l.history else Turns.Appended(l.history, m.value, id, lastId).0;
    PoolAt(o, defs, l.history);
    hide AnnouncesPool, Turns.Announced, Turns.Recorded;
    NamingAnnouncesNothing(l.history, lastId);
    SameAnnouncedSameDelta(defs, named, l.history);
    hide Deltas.Announced, Deltas.DeltaFor, Deltas.TrimmedNames, Deltas.Settled, Deltas.DeltaStep, Deltas.Announces,
         Turns.Appended, Named;
    if m.None? {
      StepOf(defs, l.history, m);
      Deltas.DeltaStepSettles(defs, l.history, after);
    } else {
      AppendReplays(l.history, m.value, id, lastId);
      var last := Turns.Appended(l.history, m.value, id, lastId).1;
      SameNoteAnnounces(m.value, last, Deltas.DeltaFor(defs, named).value);
      StepOf(defs, named, Some(last));
      Deltas.DeltaStepSettles(defs, named, after);
    }
  }

  lemma PoolAt(o: Turns.Outside, defs: seq<ToolDefinition>, h: seq<Message>)
    requires AnnouncesPool(o, defs, true)
    ensures match Deltas.DeltaFor(defs, h)
            case None => o.delta(h) == None
            case Some(delta) => o.delta(h).Some? && Deltas.Announces(o.delta(h).value, delta)
  {
    assert Announcement(o, defs, true, h);
    hide Deltas.DeltaFor, Deltas.Announces;
  }

  lemma SameAnnouncedSameDelta(defs: seq<ToolDefinition>, a: seq<Message>, b: seq<Message>)
    requires Deltas.Announced(a) == Deltas.Announced(b)
    ensures Deltas.DeltaFor(defs, a) == Deltas.DeltaFor(defs, b)
  {
  }

  lemma SameNoteAnnounces(a: Message, b: Message, delta: Deltas.Delta)
    requires a.note == b.note && Deltas.Announces(a, delta)
    ensures Deltas.Announces(b, delta)
  {
  }

  lemma StepOf(defs: seq<ToolDefinition>, history: seq<Message>, m: Option<Message>)
    requires match Deltas.DeltaFor(defs, history)
             case None => m == None
             case Some(delta) => m.Some? && Deltas.Announces(m.value, delta)
    ensures Deltas.DeltaStep(defs, history, if m.Some? then history + [m.value] else history)
  {
    hide Deltas.DeltaFor, Deltas.Announces;
  }

  lemma {:induction false} RecordingKeepsAnnounced(l: Turns.Log, ms: seq<Message>, newID: nat -> Id)
    requires forall m | m in ms :: !m.note.DeferredDelta?
    ensures Deltas.Announced(Turns.RecordedAll(l, ms, newID).history) == Deltas.Announced(l.history)
    decreases |ms|
  {
    hide Deltas.Announced;
    if ms != [] {
      assert ms[0] in ms && forall m | m in ms[1..] :: m in ms;
      RecordKeepsAnnounced(l, ms[0], newID);
      RecordingKeepsAnnounced(Turns.Recorded(l, ms[0], newID), ms[1..], newID);
    }
  }

  lemma RecordKeepsAnnounced(l: Turns.Log, m: Message, newID: nat -> Id)
    requires !m.note.DeferredDelta?
    ensures Deltas.Announced(Turns.Recorded(l, m, newID).history) == Deltas.Announced(l.history)
  {
    AppendReplays(l.history, m, newID(l.issued), newID(l.issued + 1));
  }

  lemma {:induction false} RoundsKeepAnnounced(l: Turns.Log, o: Turns.Outside, r: nat)
    requires RepliesAnnounceNothing(o)
    ensures Deltas.Announced(Turns.AfterRounds(l, o, r).history) == Deltas.Announced(l.history)
  {
    hide Deltas.Announced, Turns.Recorded, Turns.RecordedAll;
    if r > 0 {
      RoundsKeepAnnounced(l, o, r - 1);
      var previous, answer := Turns.AfterRounds(l, o, r - 1), Turns.Answer(o.replies(r - 1));
      if answer.Some? {
        RecordKeepsAnnounced(previous, answer.value.message, o.newID);
        RecordingKeepsAnnounced(Turns.Recorded(previous, answer.value.message, o.newID), answer.value.toolMessages,
                                o.newID);
      }
    }
  }

  /** The log of a turn just before the delta step. */
  function BeforeDelta(lower: string -> string, history: seq<Message>, o: Turns.Outside, compacted: bool): Turns.Log {
    var recorded := Turns.RecordedAll(Turns.Log(history, [], 0), o.initial, o.newID);
    if compacted && o.compaction.Succeeds? then Turns.CompactedLog(lower, recorded, o.compaction.options) else recorded
  }

  /** Whatever the history was and whether or not it was compacted: with tool search on, every history sent in
      a turn announces all deferred tools of the pool and nothing outside it, exactly if the names are trimmed;
      with it off, every one announces what the log did before. */
  lemma EverySendIsSettled(lower: string -> string, history: seq<Message>, o: Turns.Outside, result: Turns.Result,
                           defs: seq<ToolDefinition>, on: bool, i: nat)
    requires Turns.Follows(result, Turns.Opening(lower, history, o, result.compacted), o) && i < |result.sent|
    requires AnnouncesPool(o, defs, on) && RepliesAnnounceNothing(o)
    ensures if on then Deltas.Settled(defs, result.sent[i]) <==> Deltas.TrimmedNames(defs)
            else Deltas.Announced(result.sent[i]) ==
                 Deltas.Announced(BeforeDelta(lower, history, o, result.compacted).history)
  {
    var l := BeforeDelta(lower, history, o, result.compacted);
    if on {
      AnnouncedIsSettled(defs, l, o);
    } else {
      assert Announcement(o, defs, on, l.history);
    }
    RoundsKeepAnnounced(Turns.Announced(l, o), o, i);
    hide AnnouncesPool, RepliesAnnounceNothing, Deltas.Announced, Turns.AfterRounds, Turns.CompactedLog,
         Turns.RecordedAll, Deltas.TrimmedNames;
  }
}
