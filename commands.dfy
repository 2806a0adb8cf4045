/**
 * The two external programs the assistant starts, llama-cli and espeak, seen
 * only through the argument vectors it hands them and the (return code,
 * captured output) pair llama-cli gives back. Starting a process is outside
 * the model: a cycle's effects are the argument vectors, in order.
 */
module Commands {

  /** The llama-cli executable and the model file it loads (paths already expanded). */
  datatype Config = Config(cli: string, model: string)

  /** The number of tokens to generate, passed to llama-cli as text. */
  const GenTokens: string := "64"

  /** What a finished llama-cli run gives back: its exit code and its merged stdout/stderr. */
  datatype ProcessResult = ProcessResult(returncode: int, stdout: string)

  /** A program the cycle starts. */
  datatype Effect = InvokeLlm(argv: seq<string>) | Speak(argv: seq<string>)

  /**
   * Flag/value pairs as a command-line parser reads them after the program
   * name; when a flag repeats, its first value is the one kept.
   */
  function Options(args: seq<string>): map<string, string>
    decreases |args|
  {
    if |args| < 2 then map[]
    else Options(args[2..])[args[0] := args[1]]
  }

  /** The argument vector for one non-interactive llama-cli run. */
  function LlmArgv(cfg: Config, prompt: string): (argv: seq<string>)
    ensures |argv| == 7 && argv[0] == cfg.cli
    ensures Options(argv[1..]) == map["-m" := cfg.model, "-p" := prompt, "-n" := GenTokens]
  {
    var argv := [cfg.cli, "-m", cfg.model, "-p", prompt, "-n", GenTokens];
    assert argv[1..][2..] == ["-p", prompt, "-n", GenTokens];
    assert argv[1..][2..][2..] == ["-n", GenTokens];
    assert argv[1..][2..][2..][2..] == [];
    assert "-m"[1] != "-p"[1] && "-m"[1] != "-n"[1] && "-p"[1] != "-n"[1];
    assert Options(argv[1..][2..][2..]) == map["-n" := GenTokens];
    assert Options(argv[1..][2..]) == map["-n" := GenTokens]["-p" := prompt];
    argv
  }

  /** The argument vector for speaking `text` with espeak at 140 words per minute. */
  function SpeakArgv(text: string): (argv: seq<string>)
    ensures |argv| == 4 && argv[0] == "espeak" && argv[|argv| - 1] == text
    ensures Options(argv[1..|argv| - 1]) == map["-s" := "140"]
  {
    var argv := ["espeak", "-s", "140", text];
    assert argv[1..|argv| - 1][2..] == [];
    argv
  }

  /**
   * The prompt reaches llama-cli as one argument, unchanged, whatever
   * spaces or quotes it holds: different prompts give different vectors.
   */
  lemma {:induction false} PromptIsOneArgument(cfg: Config, p: string, q: string)
    ensures LlmArgv(cfg, p) == LlmArgv(cfg, q) <==> p == q
  {
    if LlmArgv(cfg, p) == LlmArgv(cfg, q) {
      assert LlmArgv(cfg, p)[4] == LlmArgv(cfg, q)[4];
    }
  }

  /** Likewise the spoken text is one argument of espeak. */
  lemma {:induction false} SpokenTextIsOneArgument(s: string, t: string)
    ensures SpeakArgv(s) == SpeakArgv(t) <==> s == t
  {
    if SpeakArgv(s) == SpeakArgv(t) {
      assert SpeakArgv(s)[3] == SpeakArgv(t)[3];
    }
  }
}
