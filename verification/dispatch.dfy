/** Bulk sending: the strictly sequential loops of `/enviar-lista-contactos`,
    `/enviar-masivo`, `/enviar-masivo-estado` and `/enviar-masivo-variantes`,
    their validation, and the campaign variant and pause choice.

    `sock.sendMessage` is an oracle `outcome(i)` giving the result of the
    i-th send of the loop; `Math.random()` draws are oracles `draw(i)` in
    [0, 1); the waits are returned as the list of their durations. */
module Dispatch {
  import opened Wrappers
  import Text
  import Store

  datatype Outcome = Sent | Failed(reason: string)

  /** A value of `Math.random()`. */
  type Unit = r: real | 0.0 <= r < 1.0 witness 0.0

  datatype Estado = Enviado(variante: Option<string>) | Error(error: string)

  datatype Detalle = Detalle(numero: string, estado: Estado)

  /** Why a request is refused before anything is sent. */
  datatype Rejection =
    | NotConnected       // `!sock`
    | NoTargets          // `numeros` missing, not a list, or empty
    | NoMessage          // `mensaje` missing or blank
    | NoStates           // `estados` missing, not a list, or empty
    | EmptySegment       // no contact in the selected states
    | CampaignNotFound   // no such campaign, or it has no variants
    | NoCatalog          // neither the locale nor `es` exists: indexing `undefined` throws

  function Repeat<T>(x: T, n: nat): (r: seq<T>)
    ensures |r| == n && forall i | 0 <= i < n :: r[i] == x
  {
    if n == 0 then [] else Repeat(x, n - 1) + [x]
  }

  /** The row `guardarMensajeEnDB(numero, texto, 'enviado', fecha, null, null, 0)` writes. */
  function Outbound(numero: string, texto: string, fecha: string): Store.Message {
    Store.Message(numero, texto, Store.Enviado, fecha, None, None, 0)
  }

  // -----------------------------------------------------------------------
  // What the first `n` iterations of a loop do, as functions of the oracle
  // -----------------------------------------------------------------------

  /** How many of the first `n` sends succeed. */
  function Successes(outcome: nat -> Outcome, n: nat): (k: nat)
    ensures k <= n
  {
    if n == 0 then 0 else Successes(outcome, n - 1) + (if outcome(n - 1).Sent? then 1 else 0)
  }

  /** The rows logged: one outbound row per successful send, in order. */
  function Log(ts: seq<string>, texts: seq<string>, outcome: nat -> Outcome, fecha: string, n: nat): (log: seq<Store.Message>)
    requires n <= |ts| && n <= |texts|
    ensures |log| == Successes(outcome, n)
  {
    if n == 0 then []
    else Log(ts, texts, outcome, fecha, n - 1) + (if outcome(n - 1).Sent? then [Outbound(ts[n - 1], texts[n - 1], fecha)] else [])
  }

  /** The waits: after each successful send, that iteration's pause. */
  function Pauses(delays: seq<nat>, outcome: nat -> Outcome, n: nat): (ps: seq<nat>)
    requires n <= |delays|
    ensures |ps| == Successes(outcome, n)
  {
    if n == 0 then []
    else Pauses(delays, outcome, n - 1) + (if outcome(n - 1).Sent? then [delays[n - 1]] else [])
  }

  /** `mensajeFinal.substring(0, 50) + '...'` */
  function Preview(texto: string): (p: string)
    ensures |p| <= 53 && Text.StartsWith(p, Text.Take(texto, 50))
    ensures |p| == |Text.Take(texto, 50)| + 3 && p[|p| - 3..] == "..."
  {
    Text.Take(texto, 50) + "..."
  }

  /** The detail of one target. */
  function DetailOf(numero: string, texto: string, o: Outcome, withPreview: bool): Detalle {
    match o
    case Sent => Detalle(numero, Enviado(if withPreview then Some(Preview(texto)) else None))
    case Failed(reason) => Detalle(numero, Error(reason))
  }

  /** One detail per target, in target order. */
  function Details(ts: seq<string>, texts: seq<string>, outcome: nat -> Outcome, withPreview: bool, n: nat): (ds: seq<Detalle>)
    requires n <= |ts| && n <= |texts|
    ensures |ds| == n
  {
    if n == 0 then []
    else Details(ts, texts, outcome, withPreview, n - 1) + [DetailOf(ts[n - 1], texts[n - 1], outcome(n - 1), withPreview)]
  }

  /** Every wait is one of the iterations' pauses. */
  lemma {:induction false} PausesFromDelays(delays: seq<nat>, outcome: nat -> Outcome, n: nat)
    requires n <= |delays|
    ensures forall p | p in Pauses(delays, outcome, n) :: p in delays
  {
    if n > 0 {
      PausesFromDelays(delays, outcome, n - 1);
    }
  }

  /** The i-th detail is the i-th target's: its address, and either
      `enviado` or the send's error. A failed send does not stop the loop:
      later targets still get their own detail. */
  lemma {:induction false} DetailsPerTarget(ts: seq<string>, texts: seq<string>, outcome: nat -> Outcome, withPreview: bool, n: nat)
    requires n <= |ts| && n <= |texts|
    ensures forall i | 0 <= i < n ::
      Details(ts, texts, outcome, withPreview, n)[i] == DetailOf(ts[i], texts[i], outcome(i), withPreview)
  {
    if n > 0 {
      DetailsPerTarget(ts, texts, outcome, withPreview, n - 1);
      var ds := Details(ts, texts, outcome, withPreview, n);
      forall i | 0 <= i < n - 1
        ensures ds[i] == DetailOf(ts[i], texts[i], outcome(i), withPreview)
      {
        assert ds[i] == Details(ts, texts, outcome, withPreview, n - 1)[i];
      }
    }
  }

  /** A row is logged exactly when some target's send succeeded, and it
      carries that target and that target's text. */
  lemma {:induction false} LogOnlyDelivered(ts: seq<string>, texts: seq<string>, outcome: nat -> Outcome, fecha: string, n: nat)
    requires n <= |ts| && n <= |texts|
    ensures forall m :: m in Log(ts, texts, outcome, fecha, n) <==>
      exists i | 0 <= i < n :: outcome(i).Sent? && m == Outbound(ts[i], texts[i], fecha)
  {
    if n > 0 {
      LogOnlyDelivered(ts, texts, outcome, fecha, n - 1);
      forall m
        ensures m in Log(ts, texts, outcome, fecha, n) <==>
          exists i | 0 <= i < n :: outcome(i).Sent? && m == Outbound(ts[i], texts[i], fecha)
      {
        if m in Log(ts, texts, outcome, fecha, n) && m !in Log(ts, texts, outcome, fecha, n - 1) {
          assert outcome(n - 1).Sent? && m == Outbound(ts[n - 1], texts[n - 1], fecha);
        }
      }
    }
  }

  /** With every send failing there is no success and nothing is logged. */
  lemma {:induction false} AllFailedLogsNothing(ts: seq<string>, texts: seq<string>, outcome: nat -> Outcome, fecha: string, n: nat)
    requires n <= |ts| && n <= |texts|
    requires forall i | 0 <= i < n :: outcome(i).Failed?
    ensures Successes(outcome, n) == 0
    ensures Log(ts, texts, outcome, fecha, n) == []
  {
    if n > 0 {
      AllFailedLogsNothing(ts, texts, outcome, fecha, n - 1);
    }
  }

  // -----------------------------------------------------------------------
  // The loops
  // -----------------------------------------------------------------------

  /** One iteration of a loop: send `texto`; on success log it, note the
      detail (with its preview when asked) and wait `pausa` ms; on failure
      note the error. */
  method SendOne(store: Store.ContactStore, numero: string, texto: string, o: Outcome,
                 withPreview: bool, pausa: nat, fecha: string)
    returns (detalle: Detalle, espera: seq<nat>)
    requires store.Valid()
    modifies store
    ensures store.Valid() && store.Rows() == old(store.Rows())
    ensures store.mensajes == old(store.mensajes) + (if o.Sent? then [Outbound(numero, texto, fecha)] else [])
    ensures detalle == DetailOf(numero, texto, o, withPreview)
    ensures espera == if o.Sent? then [pausa] else []
  {
    match o {
      case Sent =>
        store.LogMessage(Outbound(numero, texto, fecha));
        detalle := Detalle(numero, Enviado(if withPreview then Some(Preview(texto)) else None));
        espera := [pausa];
      case Failed(reason) =>
        detalle := Detalle(numero, Error(reason));
        espera := [];
    }
  }

  /** What one more iteration adds to each of the loop's records. */
  lemma NextIteration(numeros: seq<string>, texts: seq<string>, delays: seq<nat>,
                      outcome: nat -> Outcome, withPreview: bool, fecha: string, i: nat)
    requires i < |numeros| && |texts| == |numeros| && |delays| == |numeros|
    ensures Successes(outcome, i + 1) == Successes(outcome, i) + (if outcome(i).Sent? then 1 else 0)
    ensures Log(numeros, texts, outcome, fecha, i + 1)
      == Log(numeros, texts, outcome, fecha, i) + (if outcome(i).Sent? then [Outbound(numeros[i], texts[i], fecha)] else [])
    ensures Details(numeros, texts, outcome, withPreview, i + 1)
      == Details(numeros, texts, outcome, withPreview, i) + [DetailOf(numeros[i], texts[i], outcome(i), withPreview)]
    ensures Pauses(delays, outcome, i + 1) == Pauses(delays, outcome, i) + (if outcome(i).Sent? then [delays[i]] else [])
  {}

  /** The loop every campaign route runs: send the i-th text to the i-th
      number; on success log it, note the detail and wait the i-th pause;
      on failure note the error and go on with the next number. */
  method SendEach(store: Store.ContactStore, numeros: seq<string>, texts: seq<string>, delays: seq<nat>,
                  outcome: nat -> Outcome, withPreview: bool, fecha: string)
    returns (exitosos: nat, errores: nat, detalles: seq<Detalle>, pausas: seq<nat>)
    requires store.Valid() && |texts| == |numeros| && |delays| == |numeros|
    modifies store
    ensures store.Valid() && store.Rows() == old(store.Rows())
    ensures store.mensajes == old(store.mensajes) + Log(numeros, texts, outcome, fecha, |numeros|)
    ensures exitosos == Successes(outcome, |numeros|) && exitosos + errores == |numeros|
    ensures detalles == Details(numeros, texts, outcome, withPreview, |numeros|)
    ensures pausas == Pauses(delays, outcome, |numeros|)
  {
    ghost var m0 := store.mensajes;
    exitosos, errores, detalles, pausas := 0, 0, [], [];
    var i := 0;
    while i < |numeros|
      invariant 0 <= i <= |numeros|
      invariant store.Valid() && store.Rows() == old(store.Rows())
      invariant store.mensajes == m0 + Log(numeros, texts, outcome, fecha, i)
      invariant exitosos == Successes(outcome, i) && exitosos + errores == i
      invariant detalles == Details(numeros, texts, outcome, withPreview, i)
      invariant pausas == Pauses(delays, outcome, i)
    {
      var detalle, espera := SendOne(store, numeros[i], texts[i], outcome(i), withPreview, delays[i], fecha);
      NextIteration(numeros, texts, delays, outcome, withPreview, fecha, i);
      assert store.mensajes == m0 + (Log(numeros, texts, outcome, fecha, i)
        + (if outcome(i).Sent? then [Outbound(numeros[i], texts[i], fecha)] else []));
      if outcome(i).Sent? {
        exitosos := exitosos + 1;
      } else {
        errores := errores + 1;
      }
      detalles := detalles + [detalle];
      pausas := pausas + espera;
      i := i + 1;
    }
  }

  /** Lines 1190-1210: send `mensaje` to each number, log each delivered
      message, record a detail per number, pause 200 ms after a success. */
  method SendToList(store: Store.ContactStore, numeros: seq<string>, mensaje: string,
                    outcome: nat -> Outcome, fecha: string)
    returns (exitosos: nat, errores: nat, detalles: seq<Detalle>, pausas: seq<nat>)
    requires store.Valid()
    modifies store
    ensures store.Valid() && store.Rows() == old(store.Rows())
    ensures store.mensajes == old(store.mensajes) + Log(numeros, Repeat(mensaje, |numeros|), outcome, fecha, |numeros|)
    ensures exitosos == Successes(outcome, |numeros|) && exitosos + errores == |numeros|
    ensures detalles == Details(numeros, Repeat(mensaje, |numeros|), outcome, false, |numeros|)
    ensures pausas == Pauses(Repeat(200, |numeros|), outcome, |numeros|)
  {
    exitosos, errores, detalles, pausas :=
      SendEach(store, numeros, Repeat(mensaje, |numeros|), Repeat(200, |numeros|), outcome, false, fecha);
  }

  /** Lines 1523-1541 and 1593-1611: the same loop over selected rows,
      without details and with a 100 ms pause. */
  method SendToRows(store: Store.ContactStore, rows: seq<string>, mensaje: string,
                    outcome: nat -> Outcome, fecha: string)
    returns (exitosos: nat, errores: nat, pausas: seq<nat>)
    requires store.Valid()
    modifies store
    ensures store.Valid() && store.Rows() == old(store.Rows())
    ensures store.mensajes == old(store.mensajes) + Log(rows, Repeat(mensaje, |rows|), outcome, fecha, |rows|)
    ensures exitosos == Successes(outcome, |rows|) && exitosos + errores == |rows|
    ensures pausas == Pauses(Repeat(100, |rows|), outcome, |rows|)
  {
    var detalles;
    exitosos, errores, detalles, pausas :=
      SendEach(store, rows, Repeat(mensaje, |rows|), Repeat(100, |rows|), outcome, false, fecha);
  }

  // -----------------------------------------------------------------------
  // Campaign variants
  // -----------------------------------------------------------------------

  /** `Math.floor(Math.random() * len)`: a valid index. */
  function VariantIndex(draw: Unit, len: nat): (k: nat)
    requires len > 0
    ensures k < len
  {
    var l := len as real;
    ScaledBelow(draw, l);
    (draw * l).Floor
  }

  /** A draw in [0, 1) scaled by a positive length stays below it. */
  lemma ScaledBelow(draw: real, l: real)
    requires 0.0 <= draw < 1.0 && l > 0.0
    ensures 0.0 <= draw * l < l
  {
    var gap := 1.0 - draw;
    assert gap > 0.0;
    assert gap * l > 0.0;
    assert l - draw * l == gap * l;
  }

  /** `Math.floor(Math.random() * 60000) + 1000`: between one second and
      just over a minute. */
  function PauseMs(draw: Unit): (ms: nat)
    ensures 1000 <= ms < 61000
  {
    (draw * 60000.0).Floor + 1000
  }

  const AgentMark := "{agente}"

  /** `nombreAgente && text.includes('{agente}')` guards
      `replace(/{agente}/g, nombreAgente)`, and the guard changes nothing:
      with an agent name the text is the variant after `replace`, the
      name being a replacement string whose `$` patterns are expanded;
      without one it is the variant itself. */
  function Personalize(variante: string, agente: Option<string>): (r: string)
    ensures agente.Some? && agente.value != [] ==> r == Text.JsReplaceAll(variante, AgentMark, agente.value)
    ensures agente.None? || agente.value == [] ==> r == variante
  {
    if agente.Some? && agente.value != [] && Text.Occurs(variante, AgentMark) then
      Text.JsReplaceAll(variante, AgentMark, agente.value)
    else if agente.Some? && agente.value != [] then
      Text.ReplaceAllFromAbsent(variante, 0, AgentMark, agente.value);
      assert variante[0..] == variante;
      variante
    else variante
  }

  /** A name without `$` replaces every placeholder as it is, the length
      growing by the name's length less eight per placeholder. */
  lemma PersonalizeReplacesAll(variante: string, agente: Option<string>)
    ensures agente.Some? && agente.value != [] && '$' !in agente.value ==>
      && Personalize(variante, agente) == Text.ReplaceAll(variante, AgentMark, agente.value)
      && |Personalize(variante, agente)| == |variante| + Text.Matches(variante, AgentMark) * (|agente.value| - 8)
  {
    if agente.Some? && '$' !in agente.value {
      Text.JsReplaceAllPlain(variante, AgentMark, agente.value);
      Text.ReplaceAllLength(variante, AgentMark, agente.value);
    }
  }

  /** An agent called `$&` leaves every placeholder in place: the
      replacement pattern stands for the matched `{agente}`. */
  lemma DollarAgentKeepsMark(variante: string)
    ensures Personalize(variante, Some("$&")) == variante
  {
    Text.JsReplaceAllByMatch(variante, AgentMark);
  }

  /** The text sent to the i-th number. */
  function Chosen(variantes: seq<string>, agente: Option<string>, draw: Unit): string
    requires |variantes| > 0
  {
    Personalize(variantes[VariantIndex(draw, |variantes|)], agente)
  }

  /** The texts chosen for the first `n` numbers. */
  function ChosenTexts(variantes: seq<string>, agente: Option<string>, draw: nat -> Unit, n: nat): (ts: seq<string>)
    requires |variantes| > 0
    ensures |ts| == n
  {
    if n == 0 then [] else ChosenTexts(variantes, agente, draw, n - 1) + [Chosen(variantes, agente, draw(n - 1))]
  }

  /** The i-th text is the one drawn for the i-th number. */
  lemma {:induction false} ChosenAt(variantes: seq<string>, agente: Option<string>, draw: nat -> Unit, n: nat, i: nat)
    requires |variantes| > 0 && i < n
    ensures ChosenTexts(variantes, agente, draw, n)[i] == Chosen(variantes, agente, draw(i))
  {
    if i < n - 1 {
      ChosenAt(variantes, agente, draw, n - 1, i);
    }
  }

  /** The pause drawn after the first `n` sends, whether or not they are
      waited for. */
  function PauseTimes(pauseDraw: nat -> Unit, n: nat): (ps: seq<nat>)
    ensures |ps| == n
  {
    if n == 0 then [] else PauseTimes(pauseDraw, n - 1) + [PauseMs(pauseDraw(n - 1))]
  }

  /** The i-th pause is the one drawn in the i-th iteration. */
  lemma {:induction false} PauseAt(pauseDraw: nat -> Unit, n: nat, i: nat)
    requires i < n
    ensures PauseTimes(pauseDraw, n)[i] == PauseMs(pauseDraw(i))
  {
    if i < n - 1 {
      PauseAt(pauseDraw, n - 1, i);
    }
  }

  /** Every text sent is one of the campaign's variants, personalised. */
  lemma ChosenIsAVariant(variantes: seq<string>, agente: Option<string>, draw: nat -> Unit, n: nat)
    requires |variantes| > 0
    ensures forall t | t in ChosenTexts(variantes, agente, draw, n) ::
      exists k | 0 <= k < |variantes| :: t == Personalize(variantes[k], agente)
  {
    var ts := ChosenTexts(variantes, agente, draw, n);
    forall t | t in ts
      ensures exists k | 0 <= k < |variantes| :: t == Personalize(variantes[k], agente)
    {
      var i :| 0 <= i < n && ts[i] == t;
      ChosenAt(variantes, agente, draw, n, i);
      var k := VariantIndex(draw(i), |variantes|);
      assert t == Personalize(variantes[k], agente);
    }
  }

  /** Every wait of the variant loop lies in [1000, 61000) ms. */
  lemma VariantPausesBounded(pauseDraw: nat -> Unit, outcome: nat -> Outcome, n: nat)
    ensures forall p | p in Pauses(PauseTimes(pauseDraw, n), outcome, n) :: 1000 <= p < 61000
  {
    var ps := PauseTimes(pauseDraw, n);
    PausesFromDelays(ps, outcome, n);
    forall p | p in ps
      ensures 1000 <= p < 61000
    {
      var i :| 0 <= i < n && ps[i] == p;
      PauseAt(pauseDraw, n, i);
    }
  }

  /** Lines 2014-2047: for each number draw a variant, personalise it, send
      it, and on success log it, note its first 50 characters and wait a
      random pause. */
  method SendVariants(store: Store.ContactStore, numeros: seq<string>, variantes: seq<string>,
                      agente: Option<string>, outcome: nat -> Outcome, draw: nat -> Unit,
                      pauseDraw: nat -> Unit, fecha: string)
    returns (exitosos: nat, errores: nat, detalles: seq<Detalle>, pausas: seq<nat>)
    requires store.Valid() && |variantes| > 0
    modifies store
    ensures store.Valid() && store.Rows() == old(store.Rows())
    ensures store.mensajes == old(store.mensajes) + Log(numeros, ChosenTexts(variantes, agente, draw, |numeros|), outcome, fecha, |numeros|)
    ensures exitosos == Successes(outcome, |numeros|) && exitosos + errores == |numeros|
    ensures detalles == Details(numeros, ChosenTexts(variantes, agente, draw, |numeros|), outcome, true, |numeros|)
    ensures pausas == Pauses(PauseTimes(pauseDraw, |numeros|), outcome, |numeros|)
  {
    // The i-th iteration's draws are draw(i) and pauseDraw(i), so drawing
    // every text and pause before the loop yields what the loop draws.
    var texts := ChosenTexts(variantes, agente, draw, |numeros|);
    var delays := PauseTimes(pauseDraw, |numeros|);
    exitosos, errores, detalles, pausas := SendEach(store, numeros, texts, delays, outcome, true, fecha);
  }

  // -----------------------------------------------------------------------
  // Catalogue lookup
  // -----------------------------------------------------------------------

  /** Campaign name to variants, per locale. */
  type Catalog = map<string, map<string, seq<string>>>

  /** A missing request field used as an object key is the key `undefined`. */
  function Key(field: Option<string>): (k: string)
    ensures field.Some? ==> k == field.value
    ensures field.None? ==> k == "undefined"
  {
    field.GetOr("undefined")
  }

  /** `campañasPredefinidas[idioma] || campañasPredefinidas["es"]`. */
  function Locale(catalog: Catalog, idioma: Option<string>): Option<map<string, seq<string>>> {
    if Key(idioma) in catalog then Some(catalog[Key(idioma)])
    else if "es" in catalog then Some(catalog["es"])
    else None
  }

  /** The variants of the requested campaign, or why there are none. */
  function Campaign(catalog: Catalog, idioma: Option<string>, nombre: Option<string>): (r: Result<seq<string>, Rejection>)
    ensures r.Ok? ==> |r.value| > 0
    ensures r.Err? ==> r.error == NoCatalog || r.error == CampaignNotFound
  {
    match Locale(catalog, idioma)
    case None => Err(NoCatalog)
    case Some(campanas) =>
      if Key(nombre) !in campanas || |campanas[Key(nombre)]| == 0 then Err(CampaignNotFound)
      else Ok(campanas[Key(nombre)])
  }

  /** A locale the catalogue lacks reads the `es` campaigns. */
  lemma UnknownLocaleFallsBack(catalog: Catalog, idioma: Option<string>, nombre: Option<string>)
    requires Key(idioma) !in catalog
    ensures Campaign(catalog, idioma, nombre) == Campaign(catalog, Some("es"), nombre)
  {
  }

  /** A campaign is found exactly when the chosen locale has it with at
      least one variant, and then it is that locale's list. */
  lemma CampaignFound(catalog: Catalog, idioma: Option<string>, nombre: Option<string>)
    requires "es" in catalog
    ensures var campanas := if Key(idioma) in catalog then catalog[Key(idioma)] else catalog["es"];
      Campaign(catalog, idioma, nombre) ==
        if Key(nombre) in campanas && |campanas[Key(nombre)]| > 0 then Ok(campanas[Key(nombre)])
        else Err(CampaignNotFound)
  {
  }

  // -----------------------------------------------------------------------
  // The handlers: validation, then the loop
  // -----------------------------------------------------------------------

  datatype Report = Report(total: nat, exitosos: nat, errores: nat, detalles: seq<Detalle>)

  /** `numeros` must be a non-empty list. */
  predicate HasTargets(numeros: Option<seq<string>>) {
    numeros.Some? && |numeros.value| > 0
  }

  /** Lines 1172-1182 in order: connection, numbers, then a message that
      is not blank. */
  function ListRejection(connected: bool, numeros: Option<seq<string>>, mensaje: Option<string>): (r: Option<Rejection>)
    ensures r.None? <==> connected && HasTargets(numeros) && mensaje.Some? && Text.Trim(mensaje.value) != []
  {
    if !connected then Some(NotConnected)
    else if !HasTargets(numeros) then Some(NoTargets)
    else if mensaje.None? || mensaje.value == [] || Text.Trim(mensaje.value) == [] then
      assert mensaje.Some? && mensaje.value == [] ==> Text.Trim(mensaje.value) == [] by {
        if mensaje.Some? && mensaje.value == [] {
          assert Text.AllSpace(mensaje.value);
        }
      }
      Some(NoMessage)
    else None
  }

  /** `POST /enviar-lista-contactos` (line 1168). */
  method SendListRequest(store: Store.ContactStore, connected: bool, numeros: Option<seq<string>>,
                         mensaje: Option<string>, outcome: nat -> Outcome, fecha: string)
    returns (r: Result<Report, Rejection>, pausas: seq<nat>)
    requires store.Valid()
    modifies store
    ensures store.Valid() && store.Rows() == old(store.Rows())
    ensures ListRejection(connected, numeros, mensaje).Some? ==>
      r == Err(ListRejection(connected, numeros, mensaje).value) && store.mensajes == old(store.mensajes) && pausas == []
    ensures ListRejection(connected, numeros, mensaje).None? ==>
      var texts := Repeat(mensaje.value, |numeros.value|);
      && r.Ok?
      && r.value.total == |numeros.value| == |r.value.detalles|
      && r.value.exitosos + r.value.errores == r.value.total
      && r.value.detalles == Details(numeros.value, texts, outcome, false, |numeros.value|)
      && store.mensajes == old(store.mensajes) + Log(numeros.value, texts, outcome, fecha, |numeros.value|)
      && pausas == Pauses(Repeat(200, |numeros.value|), outcome, |numeros.value|)
  {
    var rechazo := ListRejection(connected, numeros, mensaje);
    if rechazo.Some? {
      return Err(rechazo.value), [];
    }
    var exitosos, errores, detalles;
    exitosos, errores, detalles, pausas := SendToList(store, numeros.value, mensaje.value, outcome, fecha);
    r := Ok(Report(|numeros.value|, exitosos, errores, detalles));
  }

  /** `POST /enviar-masivo` (line 1509): every non-archived contact. */
  method SendAllRequest(store: Store.ContactStore, connected: bool, mensaje: string,
                        outcome: nat -> Outcome, fecha: string)
    returns (r: Result<Report, Rejection>, pausas: seq<nat>)
    requires store.Valid()
    modifies store
    ensures store.Valid() && store.Rows() == old(store.Rows())
    ensures !connected ==> r == Err(NotConnected) && store.mensajes == old(store.mensajes) && pausas == []
    ensures connected ==>
      var rows := Store.SelectRows(old(store.Rows()), None);
      && r.Ok? && r.value.total == |rows|
      && r.value.exitosos == Successes(outcome, |rows|)
      && r.value.exitosos + r.value.errores == r.value.total
      && store.mensajes == old(store.mensajes) + Log(rows, Repeat(mensaje, |rows|), outcome, fecha, |rows|)
      && pausas == Pauses(Repeat(100, |rows|), outcome, |rows|)
  {
    if !connected {
      return Err(NotConnected), [];
    }
    var rows := Store.SelectRows(store.Rows(), None);
    var exitosos, errores;
    exitosos, errores, pausas := SendToRows(store, rows, mensaje, outcome, fecha);
    r := Ok(Report(|rows|, exitosos, errores, []));
  }

  /** `POST /enviar-masivo-estado` (line 1559): the non-archived contacts
      whose label is one of `estados`; an empty selection is refused. */
  method SendSegmentRequest(store: Store.ContactStore, connected: bool, mensaje: string,
                            estados: Option<seq<string>>, outcome: nat -> Outcome, fecha: string)
    returns (r: Result<Report, Rejection>, pausas: seq<nat>)
    requires store.Valid()
    modifies store
    ensures store.Valid() && store.Rows() == old(store.Rows())
    ensures !connected ==> r == Err(NotConnected)
    ensures connected && !HasTargets(estados) ==> r == Err(NoStates)
    ensures r.Err? ==> store.mensajes == old(store.mensajes) && pausas == []
    ensures connected && HasTargets(estados) ==>
      var rows := Store.SelectRows(old(store.Rows()), estados);
      && (rows == [] <==> r == Err(EmptySegment))
      && (rows != [] ==>
            && r.Ok? && r.value.total == |rows|
            && r.value.exitosos == Successes(outcome, |rows|)
            && r.value.exitosos + r.value.errores == r.value.total
            && store.mensajes == old(store.mensajes) + Log(rows, Repeat(mensaje, |rows|), outcome, fecha, |rows|)
            && pausas == Pauses(Repeat(100, |rows|), outcome, |rows|))
  {
    if !connected {
      return Err(NotConnected), [];
    }
    if !HasTargets(estados) {
      return Err(NoStates), [];
    }
    var query, params := Store.BuildSegmentQuery(estados.value);
    var rows := Store.SelectRows(store.Rows(), Some(params));
    if rows == [] {
      return Err(EmptySegment), [];
    }
    var exitosos, errores;
    exitosos, errores, pausas := SendToRows(store, rows, mensaje, outcome, fecha);
    r := Ok(Report(|rows|, exitosos, errores, []));
  }

  /** `POST /enviar-masivo-variantes` (line 1990): connection, numbers,
      then the campaign, all checked before the first send. */
  method SendVariantsRequest(store: Store.ContactStore, connected: bool, numeros: Option<seq<string>>,
                             catalog: Catalog, nombreCampana: Option<string>, idioma: Option<string>,
                             agente: Option<string>, outcome: nat -> Outcome, draw: nat -> Unit,
                             pauseDraw: nat -> Unit, fecha: string)
    returns (r: Result<Report, Rejection>, pausas: seq<nat>)
    requires store.Valid()
    modifies store
    ensures store.Valid() && store.Rows() == old(store.Rows())
    ensures !connected ==> r == Err(NotConnected)
    ensures connected && !HasTargets(numeros) ==> r == Err(NoTargets)
    ensures connected && HasTargets(numeros) && Campaign(catalog, idioma, nombreCampana).Err? ==>
      r == Err(Campaign(catalog, idioma, nombreCampana).error)
    ensures r.Err? ==> store.mensajes == old(store.mensajes) && pausas == []
    ensures connected && HasTargets(numeros) && Campaign(catalog, idioma, nombreCampana).Ok? ==>
      var variantes := Campaign(catalog, idioma, nombreCampana).value;
      var texts := ChosenTexts(variantes, agente, draw, |numeros.value|);
      && r.Ok?
      && r.value.total == |numeros.value| == |r.value.detalles|
      && r.value.exitosos + r.value.errores == r.value.total
      && r.value.detalles == Details(numeros.value, texts, outcome, true, |numeros.value|)
      && store.mensajes == old(store.mensajes) + Log(numeros.value, texts, outcome, fecha, |numeros.value|)
      && pausas == Pauses(PauseTimes(pauseDraw, |numeros.value|), outcome, |numeros.value|)
  {
    if !connected {
      return Err(NotConnected), [];
    }
    if !HasTargets(numeros) {
      return Err(NoTargets), [];
    }
    var campana := Campaign(catalog, idioma, nombreCampana);
    if campana.Err? {
      return Err(campana.error), [];
    }
    var exitosos, errores, detalles;
    exitosos, errores, detalles, pausas :=
      SendVariants(store, numeros.value, campana.value, agente, outcome, draw, pauseDraw, fecha);
    r := Ok(Report(|numeros.value|, exitosos, errores, detalles));
  }
}
