/**
 * The end-of-utterance detector of stt.py: a loop that waits 0.1 s for an
 * audio frame and, whenever none arrives, checks two timeouts: no speech at
 * all within 3 s of the start, or 1 s of silence after the last speech.
 * Time is whole milliseconds; what the microphone and the recogniser deliver
 * is a sequence of events, each stamped with the clock reading taken for it.
 */
module Endpoint {
  import opened Wrappers
  import opened Text

  const StartupTimeoutMs: int := 3000
  const SilenceTimeoutMs: int := 1000

  datatype StopReason = NoSpeech | SilenceAfterSpeech

  /**
   * One turn of the loop: the wait ran out with no frame, or a frame gave
   * the recogniser a final result or only a partial one.
   */
  datatype Event =
    | EmptyPoll(now: int)
    | FinalResult(now: int, text: string)
    | PartialResult(now: int, partial: string)

  /** A frame whose recognised text is not blank counts as speech. */
  predicate Voiced(e: Event) {
    match e
    case EmptyPoll(_) => false
    case FinalResult(_, text) => Strip(text) != []
    case PartialResult(_, partial) => Strip(partial) != []
  }

  /** Speech is a final or partial result whose text has a non-whitespace character. */
  lemma {:induction false} VoicedIff(e: Event)
    ensures Voiced(e) <==> !e.EmptyPoll? && !IsBlank(if e.FinalResult? then e.text else e.partial)
  {
    match e
    case EmptyPoll(_) =>
    case FinalResult(_, text) => StripEmptyIff(text);
    case PartialResult(_, partial) => StripEmptyIff(partial);
  }

  /** The timeout check made when the wait runs out. */
  function PollDecision(startTime: int, lastVoice: Option<int>, now: int): (stop: Option<StopReason>)
    ensures stop == Some(NoSpeech) <==> lastVoice == None && now - startTime > StartupTimeoutMs
    ensures stop == Some(SilenceAfterSpeech) <==> lastVoice.Some? && now - lastVoice.value > SilenceTimeoutMs
  {
    match lastVoice
    case None => if now - startTime > StartupTimeoutMs then Some(NoSpeech) else None
    case Some(t) => if now - t > SilenceTimeoutMs then Some(SilenceAfterSpeech) else None
  }

  /** The time of the last speech after a frame: the frame's time if it was speech. */
  function NextVoice(lastVoice: Option<int>, e: Event): (next: Option<int>)
    ensures lastVoice.Some? ==> next.Some?
    ensures next != lastVoice ==> !e.EmptyPoll? && next == Some(e.now)
  {
    if Voiced(e) then Some(e.now) else lastVoice
  }

  /** How the loop ends: the reason (None when the events ran out first), the events used and the last speech time. */
  datatype Outcome = Outcome(stop: Option<StopReason>, consumed: nat, lastVoice: Option<int>)

  /** The loop from event `i` on, with the last speech time `lastVoice` so far. */
  function RunFrom(startTime: int, lastVoice: Option<int>, events: seq<Event>, i: nat): (r: Outcome)
    requires i <= |events|
    ensures i <= r.consumed <= |events|
    ensures r.stop.None? ==> r.consumed == |events|
    ensures r.stop.Some? ==> r.consumed > i && events[r.consumed - 1].EmptyPoll?
    decreases |events| - i
  {
    if i == |events| then Outcome(None, i, lastVoice)
    else
      match events[i]
      case EmptyPoll(now) =>
        var d := PollDecision(startTime, lastVoice, now);
        if d.Some? then Outcome(d, i + 1, lastVoice) else RunFrom(startTime, lastVoice, events, i + 1)
      case _ => RunFrom(startTime, NextVoice(lastVoice, events[i]), events, i + 1)
  }

  /**
   * The last speech time after the events `es`, read backwards: the time of
   * the last voiced frame, or `lastVoice` if there is none.
   */
  function LastVoiceAfter(lastVoice: Option<int>, es: seq<Event>): Option<int> {
    if es == [] then lastVoice
    else if Voiced(es[|es| - 1]) then Some(es[|es| - 1].now)
    else LastVoiceAfter(lastVoice, es[..|es| - 1])
  }

  class Listener {
    /** The clock reading when listening began. */
    var startTime: int
    /** When speech was last heard, if ever. */
    var lastVoice: Option<int>

    constructor(now: int)
      ensures startTime == now && lastVoice == None
    {
      startTime := now;
      lastVoice := None;
    }

    /** The polling loop over the events that arrive; it leaves at the first timeout. */
    method Listen(events: seq<Event>) returns (stop: Option<StopReason>, consumed: nat)
      modifies this`lastVoice
      ensures Outcome(stop, consumed, lastVoice) == RunFrom(startTime, old(lastVoice), events, 0)
    {
      var i := 0;
      while i < |events|
        invariant i <= |events|
        invariant RunFrom(startTime, lastVoice, events, i) == RunFrom(startTime, old(lastVoice), events, 0)
        decreases |events| - i
      {
        var e := events[i];
        i := i + 1;
        if e.EmptyPoll? {
          var d := PollDecision(startTime, lastVoice, e.now);
          if d.Some? {
            return d, i;
          }
          continue;
        }
        if Voiced(e) {
          lastVoice := Some(e.now);
        }
      }
      return None, i;
    }
  }

  /** Stopping only ever happens on an empty poll, and for the reason the timeout check gives there. */
  lemma {:induction false} StopsOnlyOnEmptyPoll(startTime: int, lastVoice: Option<int>, events: seq<Event>, i: nat)
    requires i <= |events|
    ensures var r := RunFrom(startTime, lastVoice, events, i);
      r.stop.Some? ==> r.stop == PollDecision(startTime, r.lastVoice, events[r.consumed - 1].now)
    decreases |events| - i
  {
    if i < |events| {
      var e := events[i];
      if !e.EmptyPoll? {
        StopsOnlyOnEmptyPoll(startTime, NextVoice(lastVoice, e), events, i + 1);
      } else if PollDecision(startTime, lastVoice, e.now).None? {
        StopsOnlyOnEmptyPoll(startTime, lastVoice, events, i + 1);
      }
    }
  }

  /** The loop's last speech time is that of the last voiced frame it consumed. */
  lemma {:induction false} RunTracksLastVoice(startTime: int, lastVoice: Option<int>, events: seq<Event>, i: nat)
    requires i <= |events|
    ensures var r := RunFrom(startTime, lastVoice, events, i);
      r.lastVoice == LastVoiceAfter(lastVoice, events[i..r.consumed])
    decreases |events| - i
  {
    var r := RunFrom(startTime, lastVoice, events, i);
    if i == |events| {
      assert events[i..r.consumed] == [];
    } else {
      var e := events[i];
      var next := if e.EmptyPoll? then lastVoice else NextVoice(lastVoice, e);
      if e.EmptyPoll? && PollDecision(startTime, lastVoice, e.now).Some? {
        assert events[i..r.consumed] == [e];
        assert LastVoiceAfter(lastVoice, [e][..0]) == lastVoice;
      } else {
        RunTracksLastVoice(startTime, next, events, i + 1);
        LastVoiceAfterCons(lastVoice, e, events[i + 1..r.consumed]);
        assert events[i..r.consumed] == [e] + events[i + 1..r.consumed];
      }
    }
  }

  /** Reading one more event at the front first is the same as starting from its effect. */
  lemma {:induction false} LastVoiceAfterCons(lastVoice: Option<int>, e: Event, es: seq<Event>)
    ensures LastVoiceAfter(lastVoice, [e] + es) == LastVoiceAfter(NextVoice(lastVoice, e), es)
    decreases |es|
  {
    if es == [] {
      assert [e] + es == [e];
      assert [e][..0] == [];
    } else {
      var all := [e] + es;
      assert all[..|all| - 1] == [e] + es[..|es| - 1];
      LastVoiceAfterCons(lastVoice, e, es[..|es| - 1]);
    }
  }

  /**
   * Once speech has been heard it stays heard: the last speech time is never
   * cleared and "no speech" can no longer be the outcome.
   */
  lemma {:induction false} VoiceIsKept(startTime: int, lastVoice: Option<int>, events: seq<Event>, i: nat)
    requires i <= |events| && lastVoice.Some?
    ensures var r := RunFrom(startTime, lastVoice, events, i);
      r.lastVoice.Some? && r.stop != Some(NoSpeech)
    decreases |events| - i
  {
    if i < |events| {
      var e := events[i];
      if !e.EmptyPoll? {
        VoiceIsKept(startTime, NextVoice(lastVoice, e), events, i + 1);
      } else if PollDecision(startTime, lastVoice, e.now).None? {
        VoiceIsKept(startTime, lastVoice, events, i + 1);
      }
    }
  }

  /** "No speech" means that no frame before the stop was speech. */
  lemma {:induction false} NoSpeechMeansSilence(startTime: int, events: seq<Event>, i: nat)
    requires i <= |events|
    ensures var r := RunFrom(startTime, None, events, i);
      r.stop == Some(NoSpeech) ==> forall k :: i <= k < r.consumed ==> !Voiced(events[k])
    decreases |events| - i
  {
    if i < |events| {
      var e := events[i];
      if Voiced(e) {
        VoiceIsKept(startTime, Some(e.now), events, i + 1);
      } else if !e.EmptyPoll? {
        NoSpeechMeansSilence(startTime, events, i + 1);
      } else if PollDecision(startTime, None, e.now).None? {
        NoSpeechMeansSilence(startTime, events, i + 1);
      }
    }
  }

  /** Frames never end the loop: a run of frames is consumed entirely. */
  lemma {:induction false} FramesNeverStop(startTime: int, lastVoice: Option<int>, events: seq<Event>, i: nat)
    requires i <= |events|
    requires forall k :: i <= k < |events| ==> !events[k].EmptyPoll?
    ensures RunFrom(startTime, lastVoice, events, i) == Outcome(None, |events|, LastVoiceAfter(lastVoice, events[i..]))
    decreases |events| - i
  {
    if i == |events| {
      assert events[i..] == [];
    } else {
      var e := events[i];
      FramesNeverStop(startTime, NextVoice(lastVoice, e), events, i + 1);
      LastVoiceAfterCons(lastVoice, e, events[i + 1..]);
      assert events[i..] == [e] + events[i + 1..];
    }
  }

  /** Without speech in `es`, the last speech time after them is the one before. */
  lemma {:induction false} LastVoiceAfterSilence(lastVoice: Option<int>, es: seq<Event>)
    requires forall k :: 0 <= k < |es| ==> !Voiced(es[k])
    ensures LastVoiceAfter(lastVoice, es) == lastVoice
    decreases |es|
  {
    if es != [] {
      LastVoiceAfterSilence(lastVoice, es[..|es| - 1]);
    }
  }

  /**
   * The loop stops no later than the first empty poll whose timeout check
   * fires, given the last speech time the frames before it leave.
   */
  lemma {:induction false} StopsAtTimeout(startTime: int, lastVoice: Option<int>, events: seq<Event>, i: nat, j: nat)
    requires i <= j < |events| && events[j].EmptyPoll?
    requires PollDecision(startTime, LastVoiceAfter(lastVoice, events[i..j]), events[j].now).Some?
    ensures var r := RunFrom(startTime, lastVoice, events, i);
      r.stop.Some? && r.consumed <= j + 1
    decreases j - i
  {
    var e := events[i];
    if i == j {
      assert events[i..j] == [];
    } else {
      assert events[i..j] == [e] + events[i + 1..j];
      LastVoiceAfterCons(lastVoice, e, events[i + 1..j]);
      if !(e.EmptyPoll? && PollDecision(startTime, lastVoice, e.now).Some?) {
        StopsAtTimeout(startTime, NextVoice(lastVoice, e), events, i + 1, j);
      }
    }
  }

  /**
   * With no speech up to an empty poll more than 3000 ms after the start,
   * the loop ends with "no speech".
   */
  lemma {:induction false} NoSpeechAtStartupTimeout(startTime: int, events: seq<Event>, i: nat, j: nat)
    requires i <= j < |events| && events[j].EmptyPoll?
    requires forall k :: i <= k < j ==> !Voiced(events[k])
    requires events[j].now - startTime > StartupTimeoutMs
    ensures RunFrom(startTime, None, events, i).stop == Some(NoSpeech)
  {
    var before := events[i..j];
    forall k | 0 <= k < |before|
      ensures !Voiced(before[k])
    {
      assert before[k] == events[i + k];
    }
    LastVoiceAfterSilence(None, before);
    StopsAtTimeout(startTime, None, events, i, j);
    var r := RunFrom(startTime, None, events, i);
    var used := events[i..r.consumed];
    forall k | 0 <= k < |used|
      ensures !Voiced(used[k])
    {
      assert used[k] == events[i + k];
    }
    LastVoiceAfterSilence(None, used);
    RunTracksLastVoice(startTime, None, events, i);
    StopsOnlyOnEmptyPoll(startTime, None, events, i);
  }
}
