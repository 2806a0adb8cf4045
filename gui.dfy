/**
 * The touch-screen assistant (gui_voice_llm.py): the same llama-cli call,
 * reporting failures as text, and the window whose transcript grows by one
 * message per step and whose Record button is off while a cycle runs.
 * Widgets are reduced to the transcript text and the button's state.
 */
module Gui {
  import opened Wrappers
  import opened Text
  import opened Commands
  import opened OutputFilter

  const ErrorPrefix: string := "[ERROR] llama-cli exit "

  /** The reply for a failed run: the prefix and the exit code in decimal. */
  function ErrorMessage(code: int): (msg: string)
    ensures |msg| > |ErrorPrefix| && StartsWith(msg, ErrorPrefix)
    ensures ParseInt(msg[|ErrorPrefix|..]) == Some(code)
  {
    var digits := IntToDecimal(code);
    DecimalRoundTrip(code);
    assert (ErrorPrefix + digits)[|ErrorPrefix|..] == digits;
    ErrorPrefix + digits
  }

  /**
   * call_llm of the window: a failing run yields the error message, a
   * successful one the filtered output (the value the console version
   * wraps in Some).
   */
  method CallLlm(cfg: Config, prompt: string, run: ProcessResult) returns (argv: seq<string>, reply: string)
    ensures argv == LlmArgv(cfg, prompt)
    ensures run.returncode != 0 ==> reply == ErrorMessage(run.returncode)
    ensures run.returncode == 0 ==> reply == Filter(run.stdout)
  {
    argv := LlmArgv(cfg, prompt);
    if run.returncode != 0 {
      return argv, ErrorMessage(run.returncode);
    }
    reply := FilterOutput(run.stdout);
  }

  /** The text the window shows before any message. */
  const Banner: string := "Tap [ ^=^n  Record] to start...\n\n"
  const ListeningNote: string := " ^=^n  Listening..."
  const NoSpeechWarning: string := "[Warning] No speech recognized."
  const ThinkingNote: string := " ^= ^v Thinking..."

  /** The transcript after the banner and the messages `ms`, each followed by a blank line. */
  function Render(ms: seq<string>): (text: string)
    ensures StartsWith(text, Banner)
  {
    if ms == [] then Banner
    else Render(ms[..|ms| - 1]) + ms[|ms| - 1] + "\n\n"
  }

  /** Appending messages only ever extends the transcript. */
  lemma {:induction false} RenderPrefix(ms: seq<string>, more: seq<string>)
    ensures Render(ms) <= Render(ms + more)
    decreases |more|
  {
    if more != [] {
      var all := ms + more;
      var init := more[..|more| - 1];
      assert all[..|all| - 1] == ms + init;
      RenderPrefix(ms, init);
    } else {
      assert ms + more == ms;
    }
  }

  /** Appending one element after another is appending them together. */
  lemma AppendedInTurn<T>(s: seq<T>, xs: seq<T>, x: T)
    ensures s + xs + [x] == s + (xs + [x])
  {
  }

  /** Three appends in a row add the three elements in order. */
  lemma AppendedOneByOne<T>(s: seq<T>, a: T, b: T, c: T)
    ensures s + [a] + [b] + [c] == s + [a, b, c]
  {
  }

  /** Appending one sequence after another is appending them together. */
  lemma AppendedAll<T>(s: seq<T>, xs: seq<T>, ys: seq<T>)
    ensures s + xs + ys == s + (xs + ys)
  {
  }

  class VoiceLlmApp {
    /** The messages appended to the text area, in order. */
    var messages: seq<string>
    /** Whether the Record button accepts taps. */
    var recordEnabled: bool

    /** The contents of the scrolled text area. */
    function Transcript(): string
      reads this
    {
      Render(messages)
    }

    constructor()
      ensures messages == [] && recordEnabled
      ensures Transcript() == Banner
    {
      messages := [];
      recordEnabled := true;
    }

    /** append_text: the message and a blank line go at the end of the transcript. */
    method AppendText(msg: string)
      modifies this`messages
      ensures messages == old(messages) + [msg]
      ensures Transcript() == old(Transcript()) + msg + "\n\n"
    {
      messages := messages + [msg];
      assert messages[..|messages| - 1] == old(messages);
    }

    /** on_record: the button is disabled before the cycle starts. */
    method OnRecord()
      modifies this`recordEnabled
      ensures !recordEnabled
    {
      recordEnabled := false;
    }

    /**
     * process_voice: log each stage, call llama-cli on non-empty text and
     * speak whatever comes back, error messages and empty answers included;
     * the button is enabled again on both ways out.
     */
    method ProcessVoice(cfg: Config, recognized: string, run: ProcessResult) returns (effects: seq<Effect>)
      modifies this`messages, this`recordEnabled
      ensures recordEnabled
      ensures recognized == [] ==> messages == old(messages) + [ListeningNote, NoSpeechWarning] && effects == []
      ensures recognized != [] ==>
        var reply := if run.returncode != 0 then ErrorMessage(run.returncode) else Filter(run.stdout);
        messages == old(messages) + [ListeningNote, "You: " + recognized, ThinkingNote, "Assistant: " + reply]
        && effects == [InvokeLlm(LlmArgv(cfg, recognized)), Speak(SpeakArgv(reply))]
    {
      ghost var before := messages;
      AppendText(ListeningNote);
      if recognized == [] {
        AppendText(NoSpeechWarning);
        AppendedInTurn(before, [ListeningNote], NoSpeechWarning);
        effects := [];
      } else {
        ghost var heard := messages;
        effects := Converse(cfg, recognized, run);
        AppendedAll(before, [ListeningNote], messages[|heard|..]);
      }
      recordEnabled := true;
    }

    /** The part of process_voice after speech was recognised: show the exchange and speak the reply. */
    method Converse(cfg: Config, recognized: string, run: ProcessResult) returns (effects: seq<Effect>)
      modifies this`messages
      ensures
        var reply := if run.returncode != 0 then ErrorMessage(run.returncode) else Filter(run.stdout);
        messages == old(messages) + ["You: " + recognized, ThinkingNote, "Assistant: " + reply]
        && effects == [InvokeLlm(LlmArgv(cfg, recognized)), Speak(SpeakArgv(reply))]
    {
      ghost var before := messages;
      var you := "You: " + recognized;
      AppendText(you);
      AppendText(ThinkingNote);
      var argv, reply := CallLlm(cfg, recognized, run);
      var answer := "Assistant: " + reply;
      AppendText(answer);
      AppendedOneByOne(before, you, ThinkingNote, answer);
      effects := [InvokeLlm(argv), Speak(SpeakArgv(reply))];
    }
  }
}
