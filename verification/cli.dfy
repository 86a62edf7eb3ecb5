/** The command line of main.py, without argument parsing and without the
    dummy-file generation: it settles the output path and runs one combine
    call. */
module Cli {
  import opened Wrappers
  import opened Combiner
  import opened OutputPath

  /** The parsed arguments. */
  datatype Args = Args(
    videoPath: string,
    audioPath: string,
    outputPath: Option<string>,
    originalVolume: real,
    backgroundVolume: real)

  /** The arguments with every optional flag left at its default. */
  function DefaultArgs(videoPath: string, audioPath: string): Args
  {
    Args(videoPath, audioPath, None, 1.0, 0.5)
  }

  /** The request the command line hands to the combine operation. */
  function ToRequest(args: Args): Request
  {
    Request(args.videoPath, args.audioPath, ResolveOutputPath(args.outputPath, args.videoPath),
            args.originalVolume, args.backgroundVolume)
  }

  /** Runs the command line: the output path it reports and whether the
      combine call succeeded. Without an output path, the output goes next
      to the video under the prefixed name. */
  function RunCli(args: Args, env: Env): (r: (string, bool))
    ensures args.outputPath.Some? && args.outputPath.value != "" ==> r.0 == args.outputPath.value
    ensures args.outputPath.None? || args.outputPath.value == "" ==>
              && Dirname(r.0) == Dirname(args.videoPath)
              && Basename(r.0) == Prefix + Basename(args.videoPath)
    ensures r.1 <==> Run(ToRequest(args), env).result.Success?
    ensures r.1 ==> Run(ToRequest(args), env).result.value.path == r.0
    ensures args.videoPath !in env.existing || args.audioPath !in env.existing ==> !r.1
  {
    DefaultKeepsDirectory(args.videoPath);
    DefaultPrefixesName(args.videoPath);
    var req := ToRequest(args);
    (req.outputPath, Combine(req, env))
  }

  /** Run without flags, the command line makes the same combine call as a
      direct call with the signature's default gains and the generated
      output path, and reports the path the video is written to. */
  lemma FlaglessCallUsesDefaults(videoPath: string, audioPath: string, env: Env)
    ensures var req := Request(videoPath, audioPath, DefaultOutputPath(videoPath),
                               DefaultOriginalVolume, DefaultBackgroundVolume);
            && Run(ToRequest(DefaultArgs(videoPath, audioPath)), env) == Run(req, env)
            && RunCli(DefaultArgs(videoPath, audioPath), env) == (DefaultOutputPath(videoPath), Combine(req, env))
            && (Combine(req, env) ==> Run(req, env).result.value.path == DefaultOutputPath(videoPath))
  {
  }
}
