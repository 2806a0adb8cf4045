/**
 * The console assistant (voice2llm_vosk.py): one cycle of recognise, ask
 * llama-cli, speak. Speech recognition and the llama-cli run are inputs
 * (the recognised text and the run's result); the cycle's output is the
 * list of programs it starts.
 */
module Console {
  import opened Wrappers
  import opened Commands
  import opened OutputFilter

  /**
   * call_llm: run llama-cli on the prompt and clean its output. A failing
   * run gives no response and its output is not filtered.
   */
  method CallLlm(cfg: Config, prompt: string, run: ProcessResult) returns (argv: seq<string>, response: Option<string>)
    ensures argv == LlmArgv(cfg, prompt)
    ensures response.None? <==> run.returncode != 0
    ensures response.Some? ==> response.value == Filter(run.stdout)
  {
    argv := LlmArgv(cfg, prompt);
    if run.returncode != 0 {
      return argv, None;
    }
    var filtered := FilterOutput(run.stdout);
    response := Some(filtered);
  }

  /**
   * main: an empty recognition ends the cycle before llama-cli; a failed run
   * or an empty answer ends it before espeak; otherwise the answer is
   * spoken once.
   */
  method RunMain(cfg: Config, recognized: string, run: ProcessResult) returns (effects: seq<Effect>)
    ensures recognized == [] ==> effects == []
    ensures recognized != [] ==> 1 <= |effects| <= 2 && effects[0] == InvokeLlm(LlmArgv(cfg, recognized))
    ensures |effects| == 2 <==> recognized != [] && run.returncode == 0 && Filter(run.stdout) != []
    ensures |effects| == 2 ==> effects[1] == Speak(SpeakArgv(Filter(run.stdout)))
  {
    if recognized == [] {
      return [];
    }
    var argv, response := CallLlm(cfg, recognized, run);
    effects := [InvokeLlm(argv)];
    if response.None? || response.value == [] {
      return;
    }
    effects := effects + [Speak(SpeakArgv(response.value))];
  }
}
