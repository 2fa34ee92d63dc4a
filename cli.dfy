/**
 * cmd/cli.go: the pure decisions of the command-line tool. The list of running servers and the
 * lines of a log file are inputs; killing, spawning, prompting and printing are left out, so
 * each command returns what it would act on, or the message it would print instead.
 */
module Cli {
  import opened Wrappers
  import opened Config

  /** The refusals the commands print. */
  datatype CliError =
    | NameRequired               // Server name or ID required
    | NoRunningServers           // No running servers found
    | MultipleServers            // Multiple servers running, please specify server ID
    | ServerNotFound(arg: string)
    | Cancelled                  // Operation cancelled
    | EmptyDatabaseName          // database name cannot be empty
    | InvalidListArgument        // Invalid argument. Use 'running' or 'configs'

  // ---------------------------------------------------------------- showLastLines

  function Min(a: int, b: int): int {
    if a <= b then a else b
  }

  /** The last `n` lines of the input (all of them when there are fewer), in their order. */
  function LastLines(input: seq<string>, n: int): (r: seq<string>)
    ensures |r| == if n <= 0 then 0 else Min(n, |input|)
    ensures r == input[|input| - |r|..]
  {
    if n <= 0 then [] else input[|input| - Min(n, |input|)..]
  }

  /** The scanning loop of `showLastLines`: append each line, drop the oldest once there are more than `n`. */
  method ShowLastLines(input: seq<string>, n: int) returns (lines: seq<string>)
    ensures lines == LastLines(input, n)
  {
    lines := [];
    var i := 0;
    while i < |input|
      invariant 0 <= i <= |input|
      invariant lines == LastLines(input[..i], n)
    {
      lines := lines + [input[i]];
      if |lines| > n {
        lines := lines[1..];
      }
      LastLinesStep(input, n, i);
      i := i + 1;
    }
    assert input[..i] == input;
  }

  /** One more line read: append it, and drop the oldest when that makes more than `n`. */
  lemma LastLinesStep(input: seq<string>, n: int, i: int)
    requires 0 <= i < |input|
    ensures var grown := LastLines(input[..i], n) + [input[i]];
      LastLines(input[..i + 1], n) == if |grown| > n then grown[1..] else grown
  {
    assert input[..i + 1] == input[..i] + [input[i]];
  }

  // ---------------------------------------------------------------- validateDBName, listHandler

  /** `validateDBName`: only the empty name is refused. */
  function ValidateDBName(input: string): (r: Option<CliError>)
    ensures r.Some? <==> input == ""
    ensures r.Some? ==> r.value == EmptyDatabaseName
  {
    if |input| < 1 then Some(EmptyDatabaseName) else None
  }

  datatype Listing = Configs | Running

  /** `listHandler`: no argument or "configs" lists the configurations, "running" the servers. */
  function ListHandler(args: seq<string>): (r: Result<Listing, CliError>)
    ensures r == Ok(Configs) <==> args == [] || args[0] == "configs"
    ensures r == Ok(Running) <==> args != [] && args[0] == "running"
    ensures r.Err? <==> args != [] && args[0] != "configs" && args[0] != "running"
  {
    if |args| == 0 || args[0] == "configs" then Ok(Configs)
    else if args[0] == "running" then Ok(Running)
    else Err(InvalidListArgument)
  }

  // ---------------------------------------------------------------- choosing a server

  /** A server named by its ID, or also by its database name when `byDbName` is set. */
  predicate Matches(p: ProcessInfo, arg: string, byDbName: bool) {
    p.id == arg || (byDbName && p.dbName == arg)
  }

  /** Index of the first matching server, or -1. */
  function FirstMatch(ps: seq<ProcessInfo>, arg: string, byDbName: bool): (r: int)
    ensures -1 <= r < |ps|
    ensures r >= 0 ==> Matches(ps[r], arg, byDbName)
    ensures forall i :: 0 <= i < |ps| && (r == -1 || i < r) ==> !Matches(ps[i], arg, byDbName)
  {
    if ps == [] then -1
    else if Matches(ps[0], arg, byDbName) then 0
    else
      var j := FirstMatch(ps[1..], arg, byDbName);
      if j == -1 then -1 else j + 1
  }

  /** The search loops of `killServer` and `restartServer`, which stop at the first match. */
  method FindServer(ps: seq<ProcessInfo>, arg: string, byDbName: bool) returns (r: int)
    ensures r == FirstMatch(ps, arg, byDbName)
  {
    var i := 0;
    while i < |ps|
      invariant 0 <= i <= |ps|
      invariant forall k :: 0 <= k < i ==> !Matches(ps[k], arg, byDbName)
    {
      if ps[i].id == arg || (byDbName && ps[i].dbName == arg) {
        return i;
      }
      i := i + 1;
    }
    return -1;
  }

  /**
   * The server `restartServer` restarts: with no argument the only running server (refusing
   * none or several), otherwise the first one whose ID is the argument. The name of its
   * database does not select it.
   */
  function RestartTarget(ps: seq<ProcessInfo>, args: seq<string>): (r: Result<ProcessInfo, CliError>)
    ensures ps == [] ==> r == Err(NoRunningServers)
    ensures ps != [] && args == [] ==> r == if |ps| == 1 then Ok(ps[0]) else Err(MultipleServers)
    ensures ps != [] && args != [] ==>
      && (r.Ok? <==> exists i :: 0 <= i < |ps| && ps[i].id == args[0])
      && (r.Ok? ==> r.value in ps && r.value.id == args[0])
      && (r.Err? ==> r.error == ServerNotFound(args[0]))
  {
    if |ps| == 0 then Err(NoRunningServers)
    else if |args| == 0 then (if |ps| > 1 then Err(MultipleServers) else Ok(ps[0]))
    else
      var i := FirstMatch(ps, args[0], false);
      if i == -1 then Err(ServerNotFound(args[0])) else Ok(ps[i])
  }

  method SelectRestart(ps: seq<ProcessInfo>, args: seq<string>) returns (r: Result<ProcessInfo, CliError>)
    ensures r == RestartTarget(ps, args)
  {
    if |ps| == 0 {
      return Err(NoRunningServers);
    }
    if |args| == 0 {
      if |ps| > 1 {
        return Err(MultipleServers);
      }
      return Ok(ps[0]);
    }
    var i := FindServer(ps, args[0], false);
    if i == -1 {
      return Err(ServerNotFound(args[0]));
    }
    return Ok(ps[i]);
  }

  /** What `killServer` kills: every server, or one. */
  datatype KillPlan = KillEvery(servers: seq<ProcessInfo>) | KillOne(server: ProcessInfo)

  /**
   * `killServer`: a name or ID is needed unless `--all` is given; `--all` kills every running
   * server once confirmed (or forced); otherwise the first server whose ID or database name is
   * the argument. `confirmed` is the answer to the prompt ("y" or "Y").
   */
  function KillTarget(ps: seq<ProcessInfo>, args: seq<string>, killAll: bool, force: bool, confirmed: bool)
    : (r: Result<KillPlan, CliError>)
    ensures !killAll && args == [] ==> r == Err(NameRequired)
    ensures killAll ==> r == if ps == [] then Err(NoRunningServers)
                             else if force || confirmed then Ok(KillEvery(ps)) else Err(Cancelled)
    ensures !killAll && args != [] ==>
      && (r.Ok? <==> exists i :: 0 <= i < |ps| && (ps[i].id == args[0] || ps[i].dbName == args[0]))
      && (r.Ok? ==> r.value.KillOne? && r.value.server in ps && Matches(r.value.server, args[0], true))
      && (r.Err? ==> r.error == ServerNotFound(args[0]))
  {
    if !killAll && |args| == 0 then Err(NameRequired)
    else if killAll then
      if |ps| == 0 then Err(NoRunningServers)
      else if !force && !confirmed then Err(Cancelled)
      else Ok(KillEvery(ps))
    else
      var i := FirstMatch(ps, args[0], true);
      if i == -1 then Err(ServerNotFound(args[0])) else Ok(KillOne(ps[i]))
  }

  method SelectKill(ps: seq<ProcessInfo>, args: seq<string>, killAll: bool, force: bool, confirmed: bool)
    returns (r: Result<KillPlan, CliError>)
    ensures r == KillTarget(ps, args, killAll, force, confirmed)
  {
    if !killAll && |args| == 0 {
      return Err(NameRequired);
    }
    if killAll {
      if |ps| == 0 {
        return Err(NoRunningServers);
      }
      if !force && !confirmed {
        return Err(Cancelled);
      }
      return Ok(KillEvery(ps));
    }
    var i := FindServer(ps, args[0], true);
    if i == -1 {
      return Err(ServerNotFound(args[0]));
    }
    return Ok(KillOne(ps[i]));
  }

  /** A server can be killed by its database name but not restarted by it. */
  lemma KillByNameRestartById(p: ProcessInfo)
    requires p.id != p.dbName
    ensures KillTarget([p], [p.dbName], false, false, false) == Ok(KillOne(p))
    ensures RestartTarget([p], [p.dbName]) == Err(ServerNotFound(p.dbName))
  {
    assert Matches(p, p.dbName, true);
  }
}
