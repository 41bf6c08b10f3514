/** The session client as the object it is: shared variables that closures update between awaits. Each method is one
    stretch of code without an await, and moves the variables exactly as the matching step of the machine. */
module WebClientObject {
  import opened Wrappers
  import opened SessionProtocol
  import opened SessionSafety

  class WebClient {
    var session: Option<Session>
    var ready: bool
    var failed: bool
    var refreshFlight: Option<nat>
    var signingOut: bool
    var sessionVersion: nat
    var flights: seq<Flight>
    var calls: seq<Call>
    var sends: seq<Sent>

    ghost function View(): State
      reads this
    {
      State(session, ready, failed, refreshFlight, signingOut, sessionVersion, flights, calls, sends)
    }

    ghost predicate Valid()
      reads this
    {
      Inv(View())
    }

    constructor ()
      ensures Valid() && View() == InitState
    {
      session, ready, failed := None, false, false;
      refreshFlight, signingOut, sessionVersion := None, false, 0;
      flights, calls, sends := [], [], [];
    }

    method Publish(next: Option<Session>, error: bool)
      modifies this
      ensures View() == Published(old(View()), next, error)
    {
      if Identity(session) != Identity(next) {
        sessionVersion := sessionVersion + 1;
      }
      session, ready, failed := next, true, error;
    }

    method MoveTo(c: nat, pc: Pc)
      requires c < |calls|
      modifies this`calls
      ensures View() == Moved(old(View()), c, pc)
    {
      calls := calls[c := calls[c].(pc := pc)];
    }

    method Finish(c: nat, outcome: Outcome)
      requires c < |calls|
      modifies this`calls
      ensures View() == Finished(old(View()), c, outcome)
    {
      MoveTo(c, Done(outcome));
    }

    /** The closure's `send`: it reads the token of the moment. */
    method Send(c: nat, pc: Pc)
      requires c < |calls|
      modifies this`calls, this`sends
      ensures View() == Transmitted(old(View()), c, pc)
    {
      var token := None;
      var kind := calls[c].kind;
      if session.Some? && ((kind.Request? && kind.authenticated) || (kind.Upload? && kind.local)) {
        token := Some(session.value.token);
      }
      sends := sends + [Sent(c, sessionVersion, token)];
      MoveTo(c, pc);
    }

    /** `refresh` outside of signing out: one flight for everybody. */
    method AwaitRefresh(c: nat)
      requires c < |calls|
      modifies this`calls, this`flights, this`refreshFlight
      ensures View() == Joined(old(View()), c)
    {
      if refreshFlight.None? {
        refreshFlight := Some(|flights|);
        flights := flights + [Commanding];
      }
      MoveTo(c, Waiting(refreshFlight.value));
    }

    method Open(kind: Kind) returns (c: nat)
      modifies this`calls
      ensures c == old(|calls|) && View() == Opened(old(View()), kind)
    {
      c := |calls|;
      calls := calls + [Call(kind, Fetching)];
    }

    // ---------- starting a call ----------

    method StartRequest(authenticated: bool) returns (c: nat)
      requires Valid()
      modifies this
      ensures c == old(|calls|) && Valid() && View() == Step(old(View()), Event.StartRequest(authenticated))
    {
      StepIsGood(View(), Event.StartRequest(authenticated));
      var originalToken := if session.Some? then Some(session.value.token) else None;
      c := Open(Request(authenticated, originalToken, sessionVersion));
      Send(c, Fetching);
    }

    method StartUpload(local: bool) returns (c: nat)
      requires Valid()
      modifies this
      ensures c == old(|calls|) && Valid() && View() == Step(old(View()), Event.StartUpload(local))
    {
      StepIsGood(View(), Event.StartUpload(local));
      c := Open(Upload(local, sessionVersion));
      Send(c, Fetching);
    }

    method StartRestore() returns (c: nat)
      requires Valid()
      modifies this
      ensures c == old(|calls|) && Valid() && View() == Step(old(View()), Event.StartRestore)
    {
      StepIsGood(View(), Event.StartRestore);
      c := Open(Restore);
      if ready {
        Finish(c, Signed(session));
      } else if signingOut {
        Finish(c, Signed(None));
      } else {
        AwaitRefresh(c);
      }
    }

    method StartLogin() returns (c: nat)
      requires Valid()
      modifies this
      ensures c == old(|calls|) && Valid() && View() == Step(old(View()), Event.StartLogin)
    {
      StepIsGood(View(), Event.StartLogin);
      c := Open(Login);
      MoveTo(c, if refreshFlight.Some? then Waiting(refreshFlight.value) else Ordering);
    }

    method StartLogout() returns (c: nat)
      requires Valid()
      modifies this
      ensures c == old(|calls|) && Valid() && View() == Step(old(View()), Event.StartLogout)
    {
      StepIsGood(View(), Event.StartLogout);
      signingOut := true;
      c := Open(Logout);
      MoveTo(c, if refreshFlight.Some? then Waiting(refreshFlight.value) else Ordering);
    }

    // ---------- requests ----------

    method EndRequest(c: nat, status: int, payload: Option<string>)
      requires c < |calls| && calls[c].kind.Request?
      modifies this
      ensures View() == RequestEnded(old(View()), c, status, payload)
    {
      var authenticated := calls[c].kind.authenticated;
      if authenticated && calls[c].kind.startedVersion != sessionVersion {
        Finish(c, SessionChanged);
      } else if status < 200 || status > 299 {
        if authenticated && status == 401 {
          Publish(None, false);
        }
        Finish(c, Problem(status));
      } else {
        Finish(c, Returned(payload));
      }
    }

    method ReadBody(c: nat, status: int)
      requires c < |calls| && calls[c].kind.Request?
      modifies this
      ensures View() == RequestAnswered(old(View()), c, status)
    {
      if status == 204 {
        EndRequest(c, status, None);
      } else {
        MoveTo(c, Reading(status));
      }
    }

    method AnswerRequest(c: nat, status: int)
      requires c < |calls| && calls[c].kind.Request?
      modifies this
      ensures View() == RequestFirstAnswer(old(View()), c, status)
    {
      var kind := calls[c].kind;
      if kind.authenticated && kind.startedVersion != sessionVersion {
        Finish(c, SessionChanged);
        return;
      }
      if status == 401 && kind.authenticated && !signingOut {
        var token := if session.Some? then Some(session.value.token) else None;
        if token == kind.originalToken {
          AwaitRefresh(c);
          return;
        }
        if session.Some? {
          Send(c, Refetching);
          return;
        }
      }
      ReadBody(c, status);
    }

    // ---------- uploads ----------

    method EndUpload(c: nat, status: int)
      requires c < |calls| && calls[c].kind.Upload?
      modifies this
      ensures View() == UploadAnswered(old(View()), c, status)
    {
      if calls[c].kind.startedVersion != sessionVersion {
        Finish(c, SessionChanged);
      } else if status < 200 || status > 299 {
        MoveTo(c, Reading(status));
      } else {
        Finish(c, Returned(None));
      }
    }

    method AnswerUpload(c: nat, status: int)
      requires c < |calls| && calls[c].kind.Upload?
      modifies this
      ensures View() == UploadFirstAnswer(old(View()), c, status)
    {
      if calls[c].kind.startedVersion != sessionVersion {
        Finish(c, SessionChanged);
      } else if calls[c].kind.local && status == 401 && !signingOut {
        AwaitRefresh(c);
      } else {
        EndUpload(c, status);
      }
    }

    // ---------- what the environment delivers ----------

    method Answer(c: nat, reply: Reply)
      requires Valid() && Enabled(View(), Event.Answer(c, reply))
      modifies this
      ensures Valid() && View() == Step(old(View()), Event.Answer(c, reply))
    {
      StepIsGood(View(), Event.Answer(c, reply));
      if reply.NoReply? {
        Finish(c, Failed);
      } else if calls[c].kind.Request? {
        if calls[c].pc.Fetching? {
          AnswerRequest(c, reply.code);
        } else {
          ReadBody(c, reply.code);
        }
      } else if calls[c].pc.Fetching? {
        AnswerUpload(c, reply.code);
      } else {
        EndUpload(c, reply.code);
      }
    }

    method Body(c: nat, payload: Option<string>)
      requires Valid() && Enabled(View(), Event.Body(c, payload))
      modifies this
      ensures Valid() && View() == Step(old(View()), Event.Body(c, payload))
    {
      StepIsGood(View(), Event.Body(c, payload));
      if calls[c].kind.Request? {
        EndRequest(c, calls[c].pc.status, payload);
      } else {
        Finish(c, Problem(calls[c].pc.status));
      }
    }

    method Resume(c: nat)
      requires Valid() && Enabled(View(), Event.Resume(c))
      modifies this
      ensures Valid() && View() == Step(old(View()), Event.Resume(c))
    {
      StepIsGood(View(), Event.Resume(c));
      var refreshed := flights[calls[c].pc.flight].outcome;
      var kind := calls[c].kind;
      if kind.Login? || kind.Logout? {
        MoveTo(c, Ordering);
      } else if refreshed.Throws? {
        Finish(c, Failed);
      } else if kind.Restore? {
        Finish(c, Signed(refreshed.session));
      } else if refreshed.session.None? {
        if kind.Request? {
          ReadBody(c, 401);
        } else {
          EndUpload(c, 401);
        }
      } else if kind.Upload? && kind.startedVersion != sessionVersion {
        Finish(c, SessionChanged);
      } else {
        Send(c, Refetching);
      }
    }

    /** The end of a login or logout command: a granted session must pass `accept`, a logout always stops signing out. */
    method Commanded(c: nat, result: CommandReply)
      requires Valid() && Enabled(View(), Event.Commanded(c, result))
      modifies this
      ensures Valid() && View() == Step(old(View()), Event.Commanded(c, result))
    {
      StepIsGood(View(), Event.Commanded(c, result));
      if calls[c].kind.Login? {
        if result.Granted? && result.payload.Some? && Staff(result.payload.value) {
          Publish(result.payload, false);
          Finish(c, Signed(result.payload));
        } else {
          Finish(c, Failed);
        }
      } else {
        if result.Granted? {
          Publish(None, false);
          Finish(c, Returned(None));
        } else {
          Finish(c, Failed);
        }
        signingOut := false;
      }
    }

    // ---------- the refresh flight ----------

    method FlightCommanded(f: nat, result: CommandReply)
      requires Valid() && Enabled(View(), Event.FlightCommanded(f, result))
      modifies this
      ensures Valid() && View() == Step(old(View()), Event.FlightCommanded(f, result))
    {
      StepIsGood(View(), Event.FlightCommanded(f, result));
      if result.Granted? && result.payload.Some? && Staff(result.payload.value) {
        Publish(result.payload, false);
        flights := flights[f := Closing(Yields(result.payload))];
      } else {
        flights := flights[f := Failing(result == Refused(401))];
      }
    }

    method FlightCatch(f: nat)
      requires Valid() && Enabled(View(), Event.FlightCatch(f))
      modifies this
      ensures Valid() && View() == Step(old(View()), Event.FlightCatch(f))
    {
      StepIsGood(View(), Event.FlightCatch(f));
      var expired := flights[f].expired;
      Publish(None, !expired);
      flights := flights[f := Closing(if expired then Yields(None) else Throws)];
    }

    method FlightFinally(f: nat)
      requires Valid() && Enabled(View(), Event.FlightFinally(f))
      modifies this
      ensures Valid() && View() == Step(old(View()), Event.FlightFinally(f))
    {
      StepIsGood(View(), Event.FlightFinally(f));
      refreshFlight := None;
      flights := flights[f := Settled(flights[f].outcome)];
    }
  }
}
