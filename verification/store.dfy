/** The `clientes` and `mensajes` tables and every rule that writes them:
    the upsert on an inbound message, insert-if-absent for chat sync and
    contact import, the direct edits by address, the delete that cascades
    to the address's messages, and the label-segment selection used by the
    segmented bulk send. */
module Store {
  import opened Wrappers
  import Text

  /** Address suffix of a group chat. */
  const GroupSuffix := "@g.us"

  /** The label a contact gets when the inbound path or the chat sync
      creates it. */
  function LabelFor(numero: string): (etiqueta: string)
    ensures etiqueta == "grupos" <==> Text.EndsWith(numero, GroupSuffix)
    ensures etiqueta == "nuevo" <==> !Text.EndsWith(numero, GroupSuffix)
  {
    if Text.EndsWith(numero, GroupSuffix) then "grupos" else "nuevo"
  }

  /** One row of `clientes`, without its key `numero` (the key of the map). */
  datatype Contact = Contact(
    nombre: string,
    etiqueta: string,
    ultimaInteraccion: string,
    archivado: int,
    nota: string)

  /** A row as every insert path writes it: not archived, empty note. */
  function NewContact(nombre: string, etiqueta: string, fecha: string): Contact {
    Contact(nombre, etiqueta, fecha, 0, "")
  }

  datatype Direction = Recibido | Enviado

  /** One row of `mensajes`. */
  datatype Message = Message(
    numero: string,
    mensaje: string,
    tipo: Direction,
    fecha: string,
    archivo: Option<string>,
    mimeType: Option<string>,
    esMultimedia: int)

  predicate Distinct<T(==)>(s: seq<T>) {
    forall i, j | 0 <= i < j < |s| :: s[i] != s[j]
  }

  function Elems<T>(s: seq<T>): set<T> {
    set x | x in s
  }

  lemma AppendFresh<T>(s: seq<T>, x: T)
    requires Distinct(s) && x !in s
    ensures Distinct(s + [x]) && Elems(s + [x]) == Elems(s) + {x}
  {
  }

  /** An insert request: the address and the row to create if it is absent. */
  datatype Entry = Entry(numero: string, contact: Contact)

  /** The contents of `clientes`: rows by address, and the addresses in
      insertion (rowid) order. SQLite usually returns a query without
      `ORDER BY` in that order, but SQL does not promise it. */
  datatype Table = Table(clientes: map<string, Contact>, orden: seq<string>) {
    /** `numero` is UNIQUE, and the order lists exactly the stored rows. */
    predicate Valid() {
      Distinct(orden) && clientes.Keys == Elems(orden)
    }
  }

  // -----------------------------------------------------------------------
  // The table operations, as functions of the table's contents
  // -----------------------------------------------------------------------

  /** `INSERT` guarded by a lookup: a present address is left alone. */
  function Insert(t: Table, e: Entry): (r: Table)
    requires t.Valid()
    ensures r.Valid()
    ensures e.numero in t.clientes ==> r == t
    ensures e.numero !in t.clientes ==>
      r.clientes == t.clientes[e.numero := e.contact] && r.orden == t.orden + [e.numero]
  {
    if e.numero in t.clientes then t
    else
      AppendFresh(t.orden, e.numero);
      Table(t.clientes[e.numero := e.contact], t.orden + [e.numero])
  }

  /** A sequence of guarded inserts, in order. */
  function InsertAll(t: Table, es: seq<Entry>): (r: Table)
    requires t.Valid()
    ensures r.Valid()
    decreases |es|
  {
    if es == [] then t
    else Insert(InsertAll(t, es[..|es| - 1]), es[|es| - 1])
  }

  /** Rows already present are never modified and the row order only
      grows at the end. */
  lemma {:induction false} InsertAllKeepsRows(t: Table, es: seq<Entry>)
    requires t.Valid()
    ensures forall a | a in t.clientes :: a in InsertAll(t, es).clientes && InsertAll(t, es).clientes[a] == t.clientes[a]
    ensures t.orden <= InsertAll(t, es).orden
    decreases |es|
  {
    if es != [] {
      InsertAllKeepsRows(t, es[..|es| - 1]);
    }
  }

  /** Appending a request to a run of inserts performs that insert last. */
  lemma InsertAllAppend(t: Table, es: seq<Entry>, e: Entry)
    requires t.Valid()
    ensures InsertAll(t, es + [e]) == Insert(InsertAll(t, es), e)
  {
    assert (es + [e])[..|es|] == es;
  }

  /** The addresses a sequence of insert requests names. */
  function Addresses(es: seq<Entry>): (r: set<string>)
    ensures forall i | 0 <= i < |es| :: es[i].numero in r
    ensures forall a | a in r :: exists i | 0 <= i < |es| :: es[i].numero == a
  {
    if es == [] then {} else Addresses(es[..|es| - 1]) + {es[|es| - 1].numero}
  }

  /** After a sequence of guarded inserts every requested address has a
      row, and nothing else was added. */
  lemma {:induction false} InsertAllCovers(t: Table, es: seq<Entry>)
    requires t.Valid()
    ensures InsertAll(t, es).clientes.Keys == t.clientes.Keys + Addresses(es)
    decreases |es|
  {
    if es != [] {
      InsertAllCovers(t, es[..|es| - 1]);
    }
  }

  /** A row the inserts created holds the FIRST request for its address:
      later requests for the same address are ignored. */
  lemma {:induction false} InsertAllFirstWins(t: Table, es: seq<Entry>, i: nat)
    requires t.Valid()
    requires i < |es| && es[i].numero !in t.clientes
    requires forall j | 0 <= j < i :: es[j].numero != es[i].numero
    ensures es[i].numero in InsertAll(t, es).clientes
    ensures InsertAll(t, es).clientes[es[i].numero] == es[i].contact
    decreases |es|
  {
    var init := es[..|es| - 1];
    var last := es[|es| - 1];
    var mid := InsertAll(t, init);
    assert InsertAll(t, es) == Insert(mid, last);
    if i < |init| {
      assert init[i] == es[i];
      InsertAllFirstWins(t, init, i);
    } else {
      LastIsNew(t, es);
    }
  }

  lemma LastIsNew(t: Table, es: seq<Entry>)
    requires t.Valid() && |es| > 0
    requires es[|es| - 1].numero !in t.clientes
    requires forall j | 0 <= j < |es| - 1 :: es[j].numero != es[|es| - 1].numero
    ensures es[|es| - 1].numero !in InsertAll(t, es[..|es| - 1]).clientes
  {
    var init := es[..|es| - 1];
    var a := es[|es| - 1].numero;
    InsertAllCovers(t, init);
  }

  /** `actualizarCliente`: get-or-create on an inbound message. */
  function Upserted(t: Table, numero: string, nombre: string, fecha: string): (r: Table)
    requires t.Valid()
    ensures r.Valid()
    ensures r.clientes.Keys == t.clientes.Keys + {numero}
    ensures forall a | a in t.clientes && a != numero :: r.clientes[a] == t.clientes[a]
    ensures numero !in t.clientes ==>
      var c := r.clientes[numero];
      && (c.etiqueta == "grupos" <==> Text.EndsWith(numero, GroupSuffix))
      && (c.etiqueta == "nuevo" <==> !Text.EndsWith(numero, GroupSuffix))
      && c.archivado == 0 && c.nota == "" && c.nombre == nombre && c.ultimaInteraccion == fecha
      && r.orden == t.orden + [numero]
    ensures numero in t.clientes ==>
      var (was, c) := (t.clientes[numero], r.clientes[numero]);
      && c.etiqueta == was.etiqueta && c.nota == was.nota && c.archivado == was.archivado
      && c.nombre == nombre && c.ultimaInteraccion == fecha
      && r.orden == t.orden
  {
    if numero in t.clientes then
      Table(t.clientes[numero := t.clientes[numero].(nombre := nombre, ultimaInteraccion := fecha)], t.orden)
    else
      Insert(t, Entry(numero, NewContact(nombre, LabelFor(numero), fecha)))
  }

  /** `s` without the element `x`, order kept. */
  function Without<T(==)>(s: seq<T>, x: T): (r: seq<T>)
    ensures Elems(r) == Elems(s) - {x}
    ensures Distinct(s) ==> Distinct(r)
  {
    if s == [] then []
    else
      var rest := Without(s[1..], x);
      assert Elems(s) == {s[0]} + Elems(s[1..]) by {
        assert s == [s[0]] + s[1..];
      }
      if s[0] == x then rest
      else
        assert Elems([s[0]] + rest) == {s[0]} + Elems(rest);
        assert Distinct(s) ==> s[0] !in Elems(s[1..]);
        [s[0]] + rest
  }

  /** `DELETE FROM clientes WHERE numero=?`. */
  function Removed(t: Table, numero: string): (r: Table)
    requires t.Valid()
    ensures r.Valid()
    ensures numero !in r.clientes
    ensures forall a | a in t.clientes && a != numero :: a in r.clientes && r.clientes[a] == t.clientes[a]
    ensures r.clientes.Keys == t.clientes.Keys - {numero}
  {
    Table(t.clientes - {numero}, Without(t.orden, numero))
  }

  /** `DELETE FROM mensajes WHERE numero=?`: the other messages, in order. */
  function Purged(ms: seq<Message>, numero: string): (r: seq<Message>)
    ensures forall m | m in r :: m in ms && m.numero != numero
    ensures forall m | m in ms && m.numero != numero :: m in r
    ensures |r| <= |ms|
  {
    if ms == [] then []
    else if ms[0].numero == numero then Purged(ms[1..], numero)
    else [ms[0]] + Purged(ms[1..], numero)
  }

  /** Purging works message by message: a log split in two is purged
      part by part, so the remaining messages keep their order and
      multiplicity. */
  lemma {:induction false} PurgedAppend(a: seq<Message>, b: seq<Message>, numero: string)
    ensures Purged(a + b, numero) == Purged(a, numero) + Purged(b, numero)
    decreases |a|
  {
    if a != [] {
      assert (a + b)[1..] == a[1..] + b;
      PurgedAppend(a[1..], b, numero);
    } else {
      assert a + b == b;
    }
  }

  /** A single message is dropped exactly when it is the address's. */
  lemma PurgedOne(m: Message, numero: string)
    ensures Purged([m], numero) == if m.numero == numero then [] else [m]
  {
    assert [m][1..] == [];
  }

  // -----------------------------------------------------------------------
  // The bulk-send queries
  // -----------------------------------------------------------------------

  /** The row filter of `SELECT numero FROM clientes WHERE archivado=0`
      (no labels) and of the segment query `... AND (etiqueta=? OR ...)`. */
  predicate Selected(c: Contact, etiquetas: Option<seq<string>>) {
    c.archivado == 0 && (etiquetas.None? || c.etiqueta in etiquetas.value)
  }

  function FilterRows(orden: seq<string>, clientes: map<string, Contact>, etiquetas: Option<seq<string>>): (r: seq<string>)
    requires forall a | a in orden :: a in clientes
    ensures forall a :: a in r <==> a in orden && Selected(clientes[a], etiquetas)
    ensures Distinct(orden) ==> Distinct(r)
  {
    if orden == [] then []
    else
      var rest := FilterRows(orden[1..], clientes, etiquetas);
      if Selected(clientes[orden[0]], etiquetas) then [orden[0]] + rest else rest
  }

  /** The addresses a bulk send targets, in table order: exactly the stored
      non-archived contacts (whose label is one of `etiquetas`, when given),
      each once. */
  function SelectRows(t: Table, etiquetas: Option<seq<string>>): (r: seq<string>)
    requires t.Valid()
    ensures Distinct(r)
    ensures forall a :: a in r <==> a in t.clientes && Selected(t.clientes[a], etiquetas)
  {
    FilterRows(t.orden, t.clientes, etiquetas)
  }

  /** The fixed head of the segment query. */
  const SegmentHead := "SELECT numero " + "FROM clientes " + "WHERE archivado=0 " + "AND ("

  /** One alternative of the WHERE clause, and what joins two of them. */
  const Alternative := "etiqueta=?"
  const Separator := " OR "

  /** The WHERE alternatives for `n` labels: `etiqueta=?` joined by ` OR `. */
  function Alternatives(n: nat): string {
    if n == 0 then "" else if n == 1 then Alternative else Alternatives(n - 1) + Separator + Alternative
  }

  /** Number of `?` placeholders in a query text. */
  function Placeholders(q: string): nat {
    if q == [] then 0 else (if q[|q| - 1] == '?' then 1 else 0) + Placeholders(q[..|q| - 1])
  }

  lemma {:induction false} PlaceholdersAppend(a: string, b: string)
    ensures Placeholders(a + b) == Placeholders(a) + Placeholders(b)
    decreases |b|
  {
    if b == [] {
      assert a + b == a;
    } else {
      assert (a + b)[..|a + b| - 1] == a + b[..|b| - 1];
      PlaceholdersAppend(a, b[..|b| - 1]);
    }
  }

  lemma {:induction false} NoPlaceholders(q: string)
    requires '?' !in q
    ensures Placeholders(q) == 0
    decreases |q|
  {
    if q != [] {
      assert q[..|q| - 1] + [q[|q| - 1]] == q;
      NoPlaceholders(q[..|q| - 1]);
    }
  }

  /** The segment query carries one placeholder per label, so the labels
      bind to its parameters one for one. */
  lemma HeadHasNoPlaceholder()
    ensures '?' !in SegmentHead
  {
    assert '?' !in "SELECT numero ";
    assert '?' !in "FROM clientes ";
    assert '?' !in "WHERE archivado=0 ";
    assert '?' !in "AND (";
  }

  lemma {:induction false} SegmentQueryPlaceholders(n: nat)
    ensures Placeholders(SegmentHead + Alternatives(n) + ")") == n
  {
    HeadHasNoPlaceholder();
    NoPlaceholders(SegmentHead);
    NoPlaceholders(")");
    AlternativesPlaceholders(n);
    PlaceholdersAppend(SegmentHead, Alternatives(n));
    PlaceholdersAppend(SegmentHead + Alternatives(n), ")");
  }

  lemma AlternativePlaceholder()
    ensures Placeholders(Alternative) == 1
  {
    NoPlaceholders("etiqueta=");
    PlaceholdersAppend("etiqueta=", "?");
    assert "etiqueta=" + "?" == Alternative;
  }

  lemma {:induction false} AlternativesPlaceholders(n: nat)
    ensures Placeholders(Alternatives(n)) == n
  {
    AlternativePlaceholder();
    if n > 1 {
      AlternativesPlaceholders(n - 1);
      NoPlaceholders(Separator);
      PlaceholdersAppend(Alternatives(n - 1), Separator);
      PlaceholdersAppend(Alternatives(n - 1) + Separator, Alternative);
    }
  }

  /** Builds the segment query the way the handler does, one label at a
      time, and returns it with its parameter list. */
  method BuildSegmentQuery(estados: seq<string>) returns (query: string, params: seq<string>)
    ensures query == SegmentHead + Alternatives(|estados|) + ")"
    ensures params == estados
    ensures Placeholders(query) == |params|
  {
    query := SegmentHead;
    params := [];
    var index := 0;
    while index < |estados|
      invariant 0 <= index <= |estados|
      invariant query == SegmentHead + Alternatives(index)
      invariant params == estados[..index]
    {
      if index > 0 {
        query := query + Separator;
      }
      query := query + Alternative;
      params := params + [estados[index]];
      index := index + 1;
    }
    query := query + ")";
    SegmentQueryPlaceholders(|estados|);
  }

  /** One entry of the chat list the protocol client keeps. */
  datatype Chat = Chat(id: string, name: Option<string>, subject: Option<string>)

  /** The row chat sync creates for a chat it does not know. */
  function ChatEntry(c: Chat, fecha: string): Entry {
    Entry(c.id, NewContact(Text.OrElse(c.name, Text.OrElse(c.subject, "Sin nombre")), LabelFor(c.id), fecha))
  }

  /** The row is keyed by the chat id and named by `name`, else `subject`,
      else `Sin nombre`, empty strings counting as absent; groups are
      labelled `grupos`; the row is not archived and has no note. */
  lemma ChatEntryRow(c: Chat, fecha: string)
    ensures var e := ChatEntry(c, fecha);
      && e.numero == c.id && e.contact.nombre != []
      && (c.name.Some? && c.name.value != [] ==> e.contact.nombre == c.name.value)
      && ((c.name.None? || c.name.value == []) && c.subject.Some? && c.subject.value != [] ==>
            e.contact.nombre == c.subject.value)
      && ((c.name.None? || c.name.value == []) && (c.subject.None? || c.subject.value == []) ==>
            e.contact.nombre == "Sin nombre")
      && (e.contact.etiqueta == "grupos" <==> Text.EndsWith(c.id, GroupSuffix))
      && e.contact.ultimaInteraccion == fecha && e.contact.archivado == 0 && e.contact.nota == ""
  {
  }

  /** The insert requests for the first `n` chats, in chat order. */
  function ChatEntries(chats: seq<Chat>, fecha: string, n: nat): (es: seq<Entry>)
    requires n <= |chats|
    ensures |es| == n
  {
    if n == 0 then [] else ChatEntries(chats, fecha, n - 1) + [ChatEntry(chats[n - 1], fecha)]
  }

  /** One insert request per chat: the i-th names the i-th chat. */
  lemma {:induction false} ChatEntriesInOrder(chats: seq<Chat>, fecha: string, n: nat)
    requires n <= |chats|
    ensures forall i | 0 <= i < n :: ChatEntries(chats, fecha, n)[i] == ChatEntry(chats[i], fecha)
  {
    if n > 0 {
      ChatEntriesInOrder(chats, fecha, n - 1);
    }
  }

  // -----------------------------------------------------------------------
  // The tables, updated in place
  // -----------------------------------------------------------------------

  class ContactStore {
    var clientes: map<string, Contact>
    var orden: seq<string>
    var mensajes: seq<Message>

    function Rows(): Table
      reads this
    {
      Table(clientes, orden)
    }

    ghost predicate Valid()
      reads this
    {
      Rows().Valid()
    }

    constructor ()
      ensures Valid() && Rows() == Table(map[], []) && mensajes == []
    {
      clientes, orden, mensajes := map[], [], [];
    }

    /** `guardarMensajeEnDB`: append one message row. */
    method LogMessage(m: Message)
      modifies this
      ensures mensajes == old(mensajes) + [m]
      ensures Rows() == old(Rows())
    {
      mensajes := mensajes + [m];
    }

    /** `actualizarCliente`: create the contact with label `grupos` or
        `nuevo`, or refresh only its name and last-interaction time. */
    method Upsert(numero: string, nombre: string, fecha: string)
      requires Valid()
      modifies this
      ensures Valid()
      ensures Rows() == Upserted(old(Rows()), numero, nombre, fecha)
      ensures mensajes == old(mensajes)
    {
      if numero in clientes {
        clientes := clientes[numero := clientes[numero].(nombre := nombre, ultimaInteraccion := fecha)];
      } else {
        AppendFresh(orden, numero);
        clientes := clientes[numero := NewContact(nombre, LabelFor(numero), fecha)];
        orden := orden + [numero];
      }
    }

    /** Lookup followed by `INSERT` when the lookup finds nothing. */
    method InsertIfAbsent(e: Entry) returns (inserted: bool)
      requires Valid()
      modifies this
      ensures Valid()
      ensures Rows() == Insert(old(Rows()), e)
      ensures inserted <==> e.numero !in old(clientes)
      ensures mensajes == old(mensajes)
    {
      inserted := e.numero !in clientes;
      if inserted {
        AppendFresh(orden, e.numero);
        clientes := clientes[e.numero := e.contact];
        orden := orden + [e.numero];
      }
    }

    /** `sincronizarChats`: insert every unknown chat; known chats are left
        untouched. Without a chat store nothing happens. */
    method SyncChats(chats: Option<seq<Chat>>, fecha: string)
      requires Valid()
      modifies this
      ensures Valid()
      ensures chats.None? ==> Rows() == old(Rows())
      ensures chats.Some? ==> Rows() == InsertAll(old(Rows()), ChatEntries(chats.value, fecha, |chats.value|))
      ensures mensajes == old(mensajes)
    {
      if chats.None? {
        return;
      }
      var cs := chats.value;
      ghost var t0 := Rows();
      var i := 0;
      while i < |cs|
        invariant 0 <= i <= |cs|
        invariant Valid() && t0.Valid()
        invariant Rows() == InsertAll(t0, ChatEntries(cs, fecha, i))
        invariant mensajes == old(mensajes)
      {
        SyncChat(cs[i], fecha, t0, ChatEntries(cs, fecha, i));
        i := i + 1;
      }
    }

    /** One chat of `sincronizarChats`: insert it when it is unknown. */
    method SyncChat(c: Chat, fecha: string, ghost t0: Table, ghost done: seq<Entry>)
      requires Valid() && t0.Valid() && Rows() == InsertAll(t0, done)
      modifies this
      ensures Valid() && Rows() == InsertAll(t0, done + [ChatEntry(c, fecha)])
      ensures mensajes == old(mensajes)
    {
      var e := ChatEntry(c, fecha);
      InsertAllAppend(t0, done, e);
      var _ := InsertIfAbsent(e);
    }

    /** `PUT /clientes/:numero/estado`: set label and archived flag. An
        unknown address matches no row and nothing changes. */
    method SetStatus(numero: string, etiqueta: string, archivado: int)
      requires Valid()
      modifies this
      ensures Valid() && orden == old(orden) && mensajes == old(mensajes)
      ensures clientes == if numero in old(clientes)
        then old(clientes)[numero := old(clientes)[numero].(etiqueta := etiqueta, archivado := archivado)]
        else old(clientes)
    {
      if numero in clientes {
        clientes := clientes[numero := clientes[numero].(etiqueta := etiqueta, archivado := archivado)];
      }
    }

    /** `PUT /clientes/:numero/nota`. */
    method SetNote(numero: string, nota: string)
      requires Valid()
      modifies this
      ensures Valid() && orden == old(orden) && mensajes == old(mensajes)
      ensures clientes == if numero in old(clientes)
        then old(clientes)[numero := old(clientes)[numero].(nota := nota)]
        else old(clientes)
    {
      if numero in clientes {
        clientes := clientes[numero := clientes[numero].(nota := nota)];
      }
    }

    /** `PUT /clientes/:numero/nombre`; returns the number of rows changed. */
    method Rename(numero: string, nombre: string) returns (cambios: nat)
      requires Valid()
      modifies this
      ensures Valid() && orden == old(orden) && mensajes == old(mensajes)
      ensures cambios == if numero in old(clientes) then 1 else 0
      ensures clientes == if numero in old(clientes)
        then old(clientes)[numero := old(clientes)[numero].(nombre := nombre)]
        else old(clientes)
    {
      cambios := 0;
      if numero in clientes {
        clientes := clientes[numero := clientes[numero].(nombre := nombre)];
        cambios := 1;
      }
    }

    /** `DELETE /clientes/:numero`: the row goes, then every message of that
        address, whether or not a row existed. */
    method Delete(numero: string)
      requires Valid()
      modifies this
      ensures Valid()
      ensures Rows() == Removed(old(Rows()), numero)
      ensures mensajes == Purged(old(mensajes), numero)
    {
      clientes := clientes - {numero};
      orden := Without(orden, numero);
      mensajes := Purged(mensajes, numero);
    }
  }
}
