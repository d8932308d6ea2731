/** How a tool call travels: the warm daemon, its restart, and the in-process fallback
    (src/hubspot_agent/router.py, src/hubspot_agent/daemon.py). What the world does at each
    point is a parameter; `runs` counts how often the call reached the tool handler. */
module Router {
  import opened Wrappers

  /** What the daemon answers: the handler's result or error, or why the handler was not reached. */
  datatype Response = PortalMismatch | Handled(ok: bool) | BadRequest | UnknownMethod

  /** A line on the socket: not a JSON object with object params, or a request that may name a portal. */
  datatype Line = Malformed | Request(known: bool, portal: Option<string>)

  /** One JSON-RPC round trip as the world may serve it. */
  datatype Delivery =
    | Refused                       // connect failed: nothing was sent
    | Lost(processed: bool)         // sent, no answer: the daemon may have processed it
    | Answered(ok: bool)

  datatype Failure = NoFailure | Unreachable | PostSend

  /** One pass of the daemon path: can a daemon be started, does its socket come up, which portal
      does the daemon behind the socket serve, and how does the round trip go. */
  datatype Pass = Pass(starts: bool, socketUp: bool, serves: string, delivery: Delivery)

  datatype Output =
    | Formatted(resp: Response)     // `_format_tool_response`
    | PostSendWarning               // `_post_send_write_warning`
    | Fallback(reached: bool)       // the in-process CLI, which may fail before the handler

  /** Processed by a daemon of the right portal, but the answer never came back. */
  predicate LostAfterRunning(pass: Pass, portal: string) {
    pass == Pass(true, true, portal, Lost(true))
  }

  /** `_process_line`: the shape, the method and the portal are checked before the handler. A request that
      names no portal is served by whichever daemon it reaches. */
  method ProcessLine(serves: string, line: Line, ok: bool) returns (resp: Response, runs: nat)
    ensures runs <= 1 && (runs == 1 <==> resp.Handled?)
    ensures runs == 1 <==> line.Request? && line.known && line.portal in {None, Some(serves)}
    ensures resp == PortalMismatch <==> line.Request? && line.known && line.portal.Some? && line.portal.value != serves
    ensures resp == BadRequest <==> line.Malformed?
    ensures resp.Handled? ==> resp.ok == ok
  {
    if line.Malformed? {
      return BadRequest, 0;
    }
    if !line.known {
      return UnknownMethod, 0;
    }
    if line.portal.Some? && line.portal.value != serves {
      return PortalMismatch, 0;
    }
    return Handled(ok), 1;
  }

  /** `_rpc_tool` */
  method RpcTool(pass: Pass, portal: string) returns (resp: Option<Response>, failure: Failure, runs: nat)
    ensures runs <= 1
    ensures resp.Some? <==> failure == NoFailure
    ensures failure == Unreachable ==> runs == 0
    ensures resp.Some? ==> (resp.value.Handled? || resp.value.PortalMismatch?) && (runs == 1 <==> resp.value.Handled?)
    ensures resp == Some(PortalMismatch) <==> pass.delivery.Answered? && pass.serves != portal
    ensures failure == PostSend <==> pass.delivery.Lost?
    ensures pass.serves != portal ==> runs == 0
    ensures LostAfterRunning(pass, portal) ==> runs == 1
    ensures failure == Unreachable <==> pass.delivery.Refused?
    ensures pass.delivery.Answered? && pass.serves == portal ==> resp == Some(Handled(pass.delivery.ok))
  {
    match pass.delivery {
      case Refused =>
        return None, Unreachable, 0;
      case Lost(processed) =>
        runs := 0;
        if processed {
          var _, n := ProcessLine(pass.serves, Request(true, Some(portal)), true);
          runs := n;
        }
        return None, PostSend, runs;
      case Answered(ok) =>
        var r, n := ProcessLine(pass.serves, Request(true, Some(portal)), ok);
        return Some(r), NoFailure, n;
    }
  }

  /** A daemon is there, or can be started and its socket comes up. */
  predicate Reachable(alive: bool, pass: Pass) { alive || (pass.starts && pass.socketUp) }

  /** The first round trip leads to a second: refused, a read lost, or the wrong portal. */
  predicate Restarts(pass: Pass, isWrite: bool, portal: string) {
    pass.delivery.Refused? || (pass.delivery.Lost? && !isWrite) || (pass.delivery.Answered? && pass.serves != portal)
  }

  /** `_daemon_tool_path`: `None` sends the caller to the in-process fallback. */
  method DaemonToolPath(isWrite: bool, portal: string, alive: bool, first: Pass, second: Pass)
    returns (out: Option<Output>, runs: nat)
    ensures isWrite ==> runs <= 1
    ensures runs <= 2
    ensures out.None? && isWrite ==> runs == 0
    ensures out.Some? ==> out.value.Formatted? || out.value.PostSendWarning?
    ensures out == Some(PostSendWarning) ==> isWrite
    ensures out.Some? && out.value.Formatted? ==> (runs == 0 ==> out.value.resp == PortalMismatch)
    ensures out.Some? && out.value.Formatted? && isWrite ==> (runs == 1 <==> out.value.resp.Handled?)
    ensures !isWrite && alive && LostAfterRunning(first, portal) && LostAfterRunning(second, portal) ==>
      out.None? && runs == 2
    // The first answer of a daemon of the right portal is the one given; else, unless a write was lost, the
    // restarted daemon's.
    ensures Reachable(alive, first) && first.delivery.Answered? && first.serves == portal ==>
      out == Some(Formatted(Handled(first.delivery.ok))) && runs == 1
    ensures Reachable(alive, first) && first.delivery.Lost? && isWrite ==> out == Some(PostSendWarning)
    ensures Reachable(alive, first) && Restarts(first, isWrite, portal) && second.starts && second.socketUp && second.delivery.Answered? ==>
      out == Some(Formatted(if second.serves == portal then Handled(second.delivery.ok) else PortalMismatch))
    ensures Reachable(alive, first) && Restarts(first, isWrite, portal) && second.starts && second.socketUp && second.delivery.Lost? && isWrite ==>
      out == Some(PostSendWarning)
    ensures out.None? <==>
      !Reachable(alive, first)
      || (Restarts(first, isWrite, portal)
          && (!second.starts || !second.socketUp || second.delivery.Refused? || (second.delivery.Lost? && !isWrite)))
  {
    if !alive {
      if !first.starts { return None, 0; }
      if !first.socketUp { return None, 0; }
    }
    var resp, failure, n := RpcTool(first, portal);
    runs := n;
    if resp.Some? && resp.value != PortalMismatch {
      return Some(Formatted(resp.value)), runs;
    }
    if resp.None? && failure == PostSend && isWrite {
      return Some(PostSendWarning), runs;
    }
    // Attempt 2: a daemon restarted for this portal.
    if !second.starts { return None, runs; }
    if !second.socketUp { return None, runs; }
    resp, failure, n := RpcTool(second, portal);
    runs := runs + n;
    if resp.None? {
      if failure == PostSend && isWrite {
        return Some(PostSendWarning), runs;
      }
      return None, runs;
    }
    out := Some(Formatted(resp.value));
  }

  /** The `tool` branch of `route`, over every combination of dead daemon, failed start, refused
      connection, lost answer and wrong portal: a write reaches the handler at most once, it is
      never dropped in silence, and a warning is only ever given for a write. A read may be run again,
      up to three times, and there are passes where it is. */
  method RouteTool(isWrite: bool, portal: Option<string>, alive: bool, first: Pass, second: Pass, fallbackReaches: bool)
    returns (out: Output, runs: nat)
    ensures isWrite ==> runs <= 1
    ensures runs <= 3
    ensures isWrite && out.Formatted? ==> (runs == 1 <==> out.resp.Handled?)
    ensures isWrite && runs == 0 ==> out in {Formatted(PortalMismatch), PostSendWarning, Fallback(false)}
    ensures out == PostSendWarning ==> isWrite
    ensures out.Fallback? && isWrite ==> runs == if out.reached then 1 else 0
    ensures portal.None? ==> out == Fallback(fallbackReaches)
    ensures (&& !isWrite && portal.Some? && alive && fallbackReaches
             && LostAfterRunning(first, portal.value) && LostAfterRunning(second, portal.value)) ==> runs == 3
  {
    runs := 0;
    if portal.Some? {
      var daemonOut, n := DaemonToolPath(isWrite, portal.value, alive, first, second);
      runs := n;
      if daemonOut.Some? {
        return daemonOut.value, runs;
      }
    }
    out := Fallback(fallbackReaches);
    runs := runs + if fallbackReaches then 1 else 0;
  }
}
