/** The connection life cycle of `iniciarWhatsApp`: what each
    `connection.update` event causes, and when a new start is scheduled.
    The socket, the QR rendering and the file writes are not modelled;
    each is reduced to the effect it stands for. */
module Session {
  import opened Wrappers

  /** The status code that marks a session the server refuses. */
  const LoggedOut := 401
  /** Delay before reconnecting after a closed connection. */
  const CloseRetryMs := 5000
  /** Delay before starting again after a failed start. */
  const StartRetryMs := 10000

  /** The fields of a `connection.update` event the handler reads:
      `connection`, `qr` and `lastDisconnect.error.output.statusCode`. */
  datatype Update = Update(connection: Option<string>, qr: Option<string>, statusCode: Option<int>)

  datatype Effect =
    | PublishQr(qr: string)      // write `public/qr.json`
    | ClearQrAndSync             // remove `public/qr.json`, then `sincronizarChats()`
    | Restart(delayMs: nat)      // `setTimeout(iniciarWhatsApp, delayMs)`
    | ReportInvalidSession       // log that `/session` must be deleted

  /** After a close: reconnect unless the status is 401. A missing status
      is not 401, so it reconnects too. */
  function CloseDecision(statusCode: Option<int>): (e: Effect)
    ensures e == ReportInvalidSession <==> statusCode == Some(LoggedOut)
    ensures e != ReportInvalidSession <==> e == Restart(CloseRetryMs)
  {
    if statusCode != Some(LoggedOut) then Restart(CloseRetryMs) else ReportInvalidSession
  }

  predicate IsClose(u: Update) {
    u.connection == Some("close")
  }

  /** The three tests of the handler are independent `if`s, run in the
      order qr, open, close; a QR is acted on only when it is a non-empty
      string. */
  function OnUpdate(u: Update): (effects: seq<Effect>)
    ensures |effects| <= 2
    ensures (exists q :: PublishQr(q) in effects) <==> u.qr.Some? && u.qr.value != []
    ensures ClearQrAndSync in effects <==> u.connection == Some("open")
    ensures Restart(CloseRetryMs) in effects <==> IsClose(u) && u.statusCode != Some(LoggedOut)
    ensures ReportInvalidSession in effects <==> IsClose(u) && u.statusCode == Some(LoggedOut)
    ensures forall e | e in effects :: e.Restart? ==> e.delayMs == CloseRetryMs
  {
    var qr := if u.qr.Some? && u.qr.value != [] then [PublishQr(u.qr.value)] else [];
    var open := if u.connection == Some("open") then [ClearQrAndSync] else [];
    var close := if IsClose(u) then [CloseDecision(u.statusCode)] else [];
    assert u.qr.Some? && u.qr.value != [] ==> PublishQr(u.qr.value) in qr + open + close;
    qr + open + close
  }

  /** A start that throws (reading the credentials, fetching the version,
      creating the socket) schedules another start after ten seconds; one
      that succeeds schedules nothing by itself. */
  function OnStart(throws: bool): (effects: seq<Effect>)
    ensures throws <==> effects == [Restart(StartRetryMs)]
    ensures !throws <==> effects == []
  {
    if throws then [Restart(StartRetryMs)] else []
  }

  /** The effects of a run of updates, in order. */
  function Trace(us: seq<Update>): (effects: seq<Effect>)
    ensures |effects| <= 2 * |us|
  {
    if us == [] then [] else Trace(us[..|us| - 1]) + OnUpdate(us[|us| - 1])
  }

  /** Number of closes in a run of updates that will start a new socket. */
  function Reconnecting(us: seq<Update>): nat {
    if us == [] then 0
    else Reconnecting(us[..|us| - 1]) + (if IsClose(us[|us| - 1]) && us[|us| - 1].statusCode != Some(LoggedOut) then 1 else 0)
  }

  function CountRestarts(effects: seq<Effect>): nat {
    if effects == [] then 0
    else CountRestarts(effects[..|effects| - 1]) + (if effects[|effects| - 1].Restart? then 1 else 0)
  }

  lemma {:induction false} CountRestartsAppend(a: seq<Effect>, b: seq<Effect>)
    ensures CountRestarts(a + b) == CountRestarts(a) + CountRestarts(b)
  {
    if b != [] {
      var n := |b| - 1;
      assert (a + b)[..|a + b| - 1] == a + b[..n];
      CountRestartsAppend(a, b[..n]);
    } else {
      assert a + b == a;
    }
  }

  /** One update schedules a reconnection exactly when it is a close
      without a 401. */
  lemma RestartsOfOneUpdate(u: Update)
    ensures CountRestarts(OnUpdate(u)) == if IsClose(u) && u.statusCode != Some(LoggedOut) then 1 else 0
  {
    var qr := if u.qr.Some? && u.qr.value != [] then [PublishQr(u.qr.value)] else [];
    var open := if u.connection == Some("open") then [ClearQrAndSync] else [];
    var close := if IsClose(u) then [CloseDecision(u.statusCode)] else [];
    assert OnUpdate(u) == qr + open + close;
    CountRestartsAppend(qr + open, close);
    CountRestartsAppend(qr, open);
    assert CountRestarts(qr) == 0 by {
      if qr != [] {
        assert qr[..0] == [];
      }
    }
    assert CountRestarts(open) == 0 by {
      if open != [] {
        assert open[..0] == [];
      }
    }
    assert CountRestarts(close) == (if IsClose(u) && u.statusCode != Some(LoggedOut) then 1 else 0) by {
      if close != [] {
        assert close[..0] == [];
      }
    }
  }

  /** Every close that is not a 401 schedules exactly one reconnection,
      and nothing else schedules one. */
  lemma {:induction false} OneRestartPerRecoverableClose(us: seq<Update>)
    ensures CountRestarts(Trace(us)) == Reconnecting(us)
  {
    if us != [] {
      var n := |us| - 1;
      OneRestartPerRecoverableClose(us[..n]);
      assert Trace(us) == Trace(us[..n]) + OnUpdate(us[n]);
      CountRestartsAppend(Trace(us[..n]), OnUpdate(us[n]));
      RestartsOfOneUpdate(us[n]);
    }
  }

  /** Once the server answers 401 the session is reported invalid, and a
      run whose closes all carry 401 never reconnects. */
  lemma {:induction false} LoggedOutNeverRestarts(us: seq<Update>)
    requires forall i | 0 <= i < |us| :: IsClose(us[i]) ==> us[i].statusCode == Some(LoggedOut)
    ensures forall e | e in Trace(us) :: !e.Restart?
  {
    if us != [] {
      var n := |us| - 1;
      var init := us[..n];
      assert forall i | 0 <= i < |init| :: init[i] == us[i];
      LoggedOutNeverRestarts(init);
      assert Trace(us) == Trace(init) + OnUpdate(us[n]);
    }
  }
}
