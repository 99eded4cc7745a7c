/** The agent of one node: the cordon flag, the background reconcile loop that reads it,
    and the two HTTP handlers the upgrade orchestrator calls (internal/agent/server.go). */
module Agent {
  import opened Wrappers
  import Window

  /** Where the background goroutine stands. The flag is read in one locked section; a pass
      that read `false` goes on to load the spec and then to apply it. */
  datatype Pass = NoPass | Loading | Applying

  /** `passes` counts the background passes that got past their cordon check. */
  datatype State = State(cordoned: bool, pass: Pass, passes: nat)

  datatype Event = Check | Load(ok: bool) | Finish

  /** One atomic step of the background loop; None when the loop is elsewhere. */
  function Background(a: State, e: Event): Option<State> {
    match (a.pass, e)
    case (NoPass, Check) =>
      Some(if a.cordoned then a else a.(pass := Loading, passes := a.passes + 1))
    case (Loading, Load(ok)) => Some(a.(pass := if ok then Applying else NoPass))
    case (Applying, Finish) => Some(a.(pass := NoPass))
    case _ => None
  }

  function SetCordon(a: State, value: bool): State {
    a.(cordoned := value)
  }

  datatype CordonRequest = CordonRequest(cordoned: bool, reason: string)

  const OK := 200
  const BAD_REQUEST := 400
  const METHOD_NOT_ALLOWED := 405
  const INTERNAL_ERROR := 500

  /** What a pass logs about the maintenance window. */
  datatype WindowNote = NoWindow | BadWindow | Inside | Outside

  /** The window check of a pass at an instant. */
  function NoteOf(schedule: string, now: int): WindowNote {
    if schedule == "" then NoWindow
    else
      match Window.ParseCron(schedule)
      case None => BadWindow
      case Some(w) => if Window.IsOpen(w, Window.Truncate(now)) then Inside else Outside
  }

  /** The agent object. `S` is the node spec, of which only the window's schedule matters here. */
  class Server<S> {
    var cordoned: bool
    var reason: string
    var lastSpec: Option<S>
    ghost var pass: Pass
    ghost var passes: nat

    ghost function Abstract(): State
      reads this
    {
      State(cordoned, pass, passes)
    }

    constructor ()
      ensures Abstract() == State(false, NoPass, 0) && lastSpec == None && reason == ""
    {
      cordoned, reason, lastSpec := false, "", None;
      pass, passes := NoPass, 0;
    }

    /** The locked section that opens runReconcile. */
    method CheckFlag() returns (proceed: bool)
      requires pass == NoPass
      modifies this`pass, this`passes
      ensures Background(old(Abstract()), Check) == Some(Abstract())
      ensures proceed == !cordoned
      ensures proceed <==> pass == Loading
    {
      var isCordoned := cordoned;
      if isCordoned {
        return false;
      }
      pass, passes := Loading, passes + 1;
      return true;
    }

    /** loadSpec: `file` is what reading and decoding the spec file gave. */
    method LoadSpec(file: Option<S>) returns (spec: Option<S>)
      modifies this`lastSpec
      ensures spec == file
      ensures lastSpec == if file.Some? then file else old(lastSpec)
    {
      if file.None? {
        return None;
      }
      lastSpec := file;
      return file;
    }

    /** The rest of runReconcile once the check let the pass through, up to the reconcile call. What
        it finds out about the maintenance window is logged, and decides nothing: the pass goes on
        to reconcile the whole spec whenever it loads. */
    method LoadForPass(file: Option<S>, schedule: S -> string, now: int)
      returns (spec: Option<S>, note: WindowNote)
      requires pass == Loading
      modifies this`lastSpec, this`pass
      ensures Background(old(Abstract()), Load(file.Some?)) == Some(Abstract())
      ensures spec == file
      ensures lastSpec == if file.Some? then file else old(lastSpec)
      ensures spec.Some? ==>
                var expr := schedule(spec.value);
                && (note == NoWindow <==> expr == "")
                && (note == BadWindow <==> expr != "" && Window.ParseCron(expr).None?)
                && (note == Inside <==> expr != "" && Window.ParseCron(expr).Some?
                                        && Window.IsOpen(Window.ParseCron(expr).value, now / 60_000_000_000))
      ensures pass == Applying <==> file.Some?
    {
      spec := LoadSpec(file);
      if spec.None? {
        pass := NoPass;
        return spec, NoWindow;
      }
      note := NoteOf(schedule(spec.value), now);
      pass := Applying;
    }

    /** The end of runReconcile, however the reconcile call went. */
    method FinishPass()
      requires pass == Applying
      modifies this`pass
      ensures Background(old(Abstract()), Finish) == Some(Abstract())
      ensures pass == NoPass
    {
      pass := NoPass;
    }

    /** handleCordon: `body` is the decoded request, None when it does not decode. */
    method HandleCordon(isPost: bool, body: Option<CordonRequest>) returns (status: int)
      modifies this`cordoned, this`reason
      ensures status == OK <==> isPost && body.Some?
      ensures status == OK ==>
                Abstract() == SetCordon(old(Abstract()), body.value.cordoned) && reason == body.value.reason
      ensures status != OK ==> Abstract() == old(Abstract()) && reason == old(reason)
      ensures status != OK ==> status == if isPost then BAD_REQUEST else METHOD_NOT_ALLOWED
    {
      if !isPost {
        return METHOD_NOT_ALLOWED;
      }
      if body.None? {
        return BAD_REQUEST;
      }
      cordoned, reason := body.value.cordoned, body.value.reason;
      return OK;
    }

    /** handleReconcile never looks at the cordon flag: its status depends on its arguments
        alone, and it leaves the flag and the background pass as they are. */
    method HandleReconcile(isPost: bool, file: Option<S>, reconciled: bool) returns (status: int)
      modifies this`lastSpec
      ensures status == OK <==> isPost && file.Some? && reconciled
      ensures !isPost ==> status == METHOD_NOT_ALLOWED && lastSpec == old(lastSpec)
      ensures isPost && status != OK ==> status == INTERNAL_ERROR
      ensures isPost && file.Some? ==> lastSpec == file
      ensures isPost && file.None? ==> lastSpec == old(lastSpec)
    {
      if !isPost {
        return METHOD_NOT_ALLOWED;
      }
      var spec := LoadSpec(file);
      if spec.None? {
        return INTERNAL_ERROR;
      }
      return if reconciled then OK else INTERNAL_ERROR;
    }
  }
}
