/**
 * The command line of challenge_generator.py (lines 101-112): the choice
 * between the usage message, an `IndexError` and a call to `create`. The
 * script's own path (`__file__`) is a parameter, and `args` is
 * `sys.argv[1:]`.
 */
module Cli {
  import opened Common

  /** What the script does with its arguments. */
  datatype Invocation =
    | UsageError(message: string, status: int)   // print, then `sys.exit(status)`
    | IndexError(index: nat)                     // `args[index]` out of range
    | Call(steamPath: string, challengeName: string,
           description: Option<string>, directoryName: Option<string>)

  /** The message printed at line 107. */
  function UsageMessage(script: string): (m: string)
    ensures |m| == |script| + 55
    ensures m[..7] == "Usage: " && m[7..7 + |script|] == script
  {
    "Usage: " + script + " (STEAMDIR) (NAME) [DESCRIPTION] [DIRECTORYNAME]"
  }

  /** Python's `args[i]` for `i >= 0`: the element, or an `IndexError`. */
  function At(args: seq<string>, i: nat): (r: Result<string, nat>)
    ensures r.Success? <==> i < |args|
    ensures r.Success? ==> r.value == args[i]
    ensures r.Failure? ==> r.error == i
  {
    if i < |args| then Success(args[i]) else Failure(i)
  }

  /**
   * `x if guard else None` where `x` is `args[i]`: the element is only
   * read when the guard holds.
   */
  function OptionalAt(args: seq<string>, i: nat, guard: bool): (r: Result<Option<string>, nat>)
    ensures !guard ==> r == Success(None)
    ensures guard && i < |args| ==> r == Success(Some(args[i]))
    ensures guard && i >= |args| ==> r == Failure(i)
  {
    if guard then
      match At(args, i)
      case Success(a) => Success(Some(a))
      case Failure(e) => Failure(e)
    else Success(None)
  }

  /** Lines 106-112 as written: the guards of lines 110-111 compare with 2 and 3. */
  function SelectCall(script: string, args: seq<string>): (r: Invocation)
    ensures |args| < 2 <==> r == UsageError(UsageMessage(script), 1)
    ensures |args| == 2 <==> r == IndexError(2)
    ensures |args| == 3 <==> r == IndexError(3)
    ensures |args| >= 4 <==> r.Call?
    ensures |args| >= 4 ==> r == Call(args[0], args[1], Some(args[2]), Some(args[3]))
  {
    if |args| == 0 || |args| < 2 then UsageError(UsageMessage(script), 1)
    else
      match OptionalAt(args, 2, |args| >= 2)
      case Failure(i) => IndexError(i)
      case Success(args2) =>
        match OptionalAt(args, 3, |args| >= 3)
        case Failure(i) => IndexError(i)
        case Success(args3) => Call(args[0], args[1], args2, args3)
  }

  /** Arguments after the fourth never change what the script does. */
  lemma ExtraArgumentsIgnored(script: string, args: seq<string>, extra: seq<string>)
    requires |args| >= 4
    ensures SelectCall(script, args + extra) == SelectCall(script, args)
  {
    var all := args + extra;
    assert all[0] == args[0] && all[1] == args[1] && all[2] == args[2] && all[3] == args[3];
  }

  /**
   * What the usage line promises: the description and the directory name
   * are optional, so each is read only when it was given.
   */
  function IntendedSelectCall(script: string, args: seq<string>): (r: Invocation)
    ensures !r.IndexError?
    ensures |args| < 2 <==> r == UsageError(UsageMessage(script), 1)
    ensures |args| >= 2 ==> r.Call? && r.steamPath == args[0] && r.challengeName == args[1]
    ensures |args| >= 2 ==> (r.description.Some? <==> |args| > 2) && (r.directoryName.Some? <==> |args| > 3)
    ensures |args| > 2 ==> r.description == Some(args[2])
    ensures |args| > 3 ==> r.directoryName == Some(args[3])
  {
    if |args| < 2 then UsageError(UsageMessage(script), 1)
    else
      match (OptionalAt(args, 2, |args| > 2), OptionalAt(args, 3, |args| > 3))
      case (Success(args2), Success(args3)) => Call(args[0], args[1], args2, args3)
      case (Failure(i), _) => IndexError(i)
      case (_, Failure(i)) => IndexError(i)
  }

  /** The script as written and the intended one agree exactly outside two and three arguments. */
  lemma SelectCallDisagreement(script: string, args: seq<string>)
    ensures SelectCall(script, args) == IntendedSelectCall(script, args) <==> |args| < 2 || |args| >= 4
  {
  }
}
