/**
 * The result of one invocation of an external program, as the harness observes it.
 * Spawning, waiting, timeouts and pipes are not modelled: each invocation is
 * represented only by which of these four things happened.
 */
module Process {

  datatype Outcome =
    | Exited(code: int, stdout: string, stderr: string)  // the child ran to completion
    | Timeout                                            // subprocess.TimeoutExpired
    | ToolMissing                                        // FileNotFoundError when spawning
    | OtherError(message: string)                        // any other exception, by its str()

  /** `s[:n]` for a non-negative n. */
  function Take(s: string, n: nat): (r: string)
    ensures |r| == if n < |s| then n else |s|
    ensures r <= s
  {
    if n < |s| then s[..n] else s
  }
}
