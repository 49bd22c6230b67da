/** Incoming WhatsApp messages (`configurarManejoMensajes` and the
    `procesarMensaje*` functions): which events are kept, which kind of
    message they carry, the message row and the notification they leave. */
module Inbound {
  import opened Wrappers
  import Text
  import Store

  /** The fields of an audio, image, video or document message that the
      handlers read. */
  datatype Media = Media(caption: Option<string>, mimetype: Option<string>, fileName: Option<string>)

  /** `msg.message`: the sub-messages present, and the text fields. The
      text of `extendedTextMessage` is `extendedText`. */
  datatype Payload = Payload(
    audio: Option<Media>,
    image: Option<Media>,
    video: Option<Media>,
    document: Option<Media>,
    conversation: Option<string>,
    extendedText: Option<string>)

  datatype MessageKey = MessageKey(fromMe: bool, remoteJid: string)

  datatype WaMessage = WaMessage(key: MessageKey, pushName: Option<string>, message: Option<Payload>)

  datatype Kind = Audio | Image | Video | Document | Text

  /** The first message of the event, unless the event is empty, the
      message is the account's own, or it has no payload. */
  function Accepted(messages: Option<seq<WaMessage>>): Option<WaMessage> {
    if messages.None? || |messages.value| == 0 then None
    else
      var msg := messages.value[0];
      if msg.key.fromMe || msg.message.None? then None else Some(msg)
  }

  /** Audio, then image, then video, then document; text otherwise. */
  function KindOf(p: Payload): (k: Kind)
    ensures k == Audio <==> p.audio.Some?
    ensures k == Image <==> p.audio.None? && p.image.Some?
    ensures k == Video <==> p.audio.None? && p.image.None? && p.video.Some?
    ensures k == Document <==> p.audio.None? && p.image.None? && p.video.None? && p.document.Some?
    ensures k == Text <==> p.audio.None? && p.image.None? && p.video.None? && p.document.None?
  {
    if p.audio.Some? then Audio
    else if p.image.Some? then Image
    else if p.video.Some? then Video
    else if p.document.Some? then Document
    else Text
  }

  /** The sub-message of a media kind. */
  function MediaOf(p: Payload, k: Kind): Media
    requires k != Text && KindOf(p) == k
  {
    match k
    case Audio => p.audio.value
    case Image => p.image.value
    case Video => p.video.value
    case Document => p.document.value
  }

  const NoText := "(mensaje sin texto)"

  /** `conversation || extendedTextMessage?.text || "(mensaje sin texto)"`. */
  function TextOf(p: Payload): (r: string)
    ensures r != []
    ensures p.conversation.Some? && p.conversation.value != [] ==> r == p.conversation.value
    ensures (p.conversation.None? || p.conversation.value == []) && p.extendedText.Some? && p.extendedText.value != [] ==>
              r == p.extendedText.value
    ensures (p.conversation.None? || p.conversation.value == []) && (p.extendedText.None? || p.extendedText.value == []) ==>
              r == NoText
  {
    Text.OrElse(p.conversation, Text.OrElse(p.extendedText, NoText))
  }

  const AudioLabel := "\U{1F3B5} Audio"
  const ImageLabel := "\U{1F5BC}\U{FE0F} Imagen"
  const VideoLabel := "\U{1F3A5} Video"
  const DocumentMark := "\U{1F4C4} "

  /** The public folder a media kind's files are served from. */
  function PublicFolder(k: Kind): string {
    match k
    case Audio => "/audios/"
    case Image => "/imagenes/"
    case Video => "/videos/"
    case Document => "/archivos/"
    case Text => ""
  }

  /** `mimetype.split('/')[1] || fallback`. */
  function SubtypeOr(mimetype: string, fallback: string): (ext: string)
    requires fallback != [] && '/' !in fallback
    ensures ext != [] && '/' !in ext
  {
    var parts := Text.Split(mimetype, '/');
    if |parts| > 1 && parts[1] != [] then parts[1] else fallback
  }

  /** For `type/subtype` the file extension is the subtype; without a
      subtype it is the fallback. */
  lemma SubtypeOfMime(kind: string, subtype: string, fallback: string)
    requires fallback != [] && '/' !in fallback && '/' !in kind && '/' !in subtype
    ensures SubtypeOr(kind + "/" + subtype, fallback) == if subtype == [] then fallback else subtype
    ensures SubtypeOr(kind, fallback) == fallback
  {
    Text.SplitAtFirst(kind, '/', subtype);
    Text.SplitNoSep(subtype, '/');
    Text.SplitNoSep(kind, '/');
    assert kind + "/" + subtype == kind + ['/'] + subtype;
  }

  /** What an accepted message leaves behind: its row in `mensajes` and the
      text given to the notification. */
  datatype Record = Record(message: Store.Message, aviso: string)

  function Row(numero: string, texto: string, fecha: string, archivo: Option<string>,
               mimeType: Option<string>, esMultimedia: int): Store.Message {
    Store.Message(numero, texto, Store.Recibido, fecha, archivo, mimeType, esMultimedia)
  }

  /** The name a media file is stored under in its kind's folder:
      `<kind>_<Date.now()>.<extension>`, or a document's own `fileName`. */
  function StoredFileName(k: Kind, m: Media, now: nat): (name: string)
    requires k != Text && ((k == Image || k == Video) ==> m.mimetype.Some?)
    ensures k == Audio ==> name == "audio_" + Text.NatToString(now) + ".ogg"
    ensures k == Image ==> name == "imagen_" + Text.NatToString(now) + "." + SubtypeOr(m.mimetype.value, "jpg")
    ensures k == Video ==> name == "video_" + Text.NatToString(now) + "." + SubtypeOr(m.mimetype.value, "mp4")
    ensures k == Document && m.fileName.Some? && m.fileName.value != [] ==> name == m.fileName.value
    ensures k == Document && (m.fileName.None? || m.fileName.value == []) ==> name == "documento_" + Text.NatToString(now)
    ensures name != []
  {
    var stamp := Text.NatToString(now);
    match k
    case Audio => "audio_" + stamp + ".ogg"
    case Image => "imagen_" + stamp + "." + SubtypeOr(m.mimetype.value, "jpg")
    case Video => "video_" + stamp + "." + SubtypeOr(m.mimetype.value, "mp4")
    case Document => Text.OrElse(m.fileName, "documento_" + stamp)
  }

  /** `procesarMensajeAudio` … `procesarMensajeDocumento` up to the
      database call. A failed download leaves nothing, and so does an
      image or video without a MIME type (`mimetype.split` throws) and a
      file write that throws (`writeOk` false): the handler's `catch`
      swallows each of them. */
  function MediaRecord(numero: string, fecha: string, k: Kind, m: Media, now: nat,
                       downloadOk: bool, writeOk: bool): (r: Option<Record>)
    requires k != Text
    ensures r.None? <==> !downloadOk || ((k == Image || k == Video) && m.mimetype.None?) || !writeOk
    ensures r.Some? ==>
      var row := r.value.message;
      var name := StoredFileName(k, m, now);
      && row.numero == numero && row.tipo == Store.Recibido && row.fecha == fecha
      && row.esMultimedia == 1
      && row.archivo == Some(PublicFolder(k) + name)
      && row.mensaje == Text.OrElse(m.caption, r.value.aviso)
      && (k == Audio ==> r.value.aviso == AudioLabel && row.mimeType == Some("audio/ogg"))
      && (k == Image ==> r.value.aviso == ImageLabel && row.mimeType == m.mimetype)
      && (k == Video ==> r.value.aviso == VideoLabel && row.mimeType == m.mimetype)
      && (k == Document ==> r.value.aviso == DocumentMark + name && row.mimeType == m.mimetype)
  {
    if !downloadOk then None
    else if (k == Image || k == Video) && m.mimetype.None? then None
    else if !writeOk then None
    else
      var name := StoredFileName(k, m, now);
      var aviso := match k
        case Audio => AudioLabel
        case Image => ImageLabel
        case Video => VideoLabel
        case Document => DocumentMark + name;
      var mime := if k == Audio then Some("audio/ogg") else m.mimetype;
      Some(Record(Row(numero, Text.OrElse(m.caption, aviso), fecha, Some(PublicFolder(k) + name), mime, 1), aviso))
  }

  /** What the handler makes of an accepted message: a text message is
      always recorded, with its text as both row and notification; a
      media message is whatever its handler records. */
  function RecordOf(msg: WaMessage, fecha: string, now: nat, downloadOk: bool, writeOk: bool): (r: Option<Record>)
    requires msg.message.Some?
    ensures var p := msg.message.value;
      KindOf(p) == Text ==>
        && r.Some? && r.value.aviso == TextOf(p)
        && r.value.message == Store.Message(msg.key.remoteJid, TextOf(p), Store.Recibido, fecha, None, None, 0)
    ensures var p := msg.message.value;
      KindOf(p) != Text ==> r == MediaRecord(msg.key.remoteJid, fecha, KindOf(p), MediaOf(p, KindOf(p)), now, downloadOk, writeOk)
    ensures r.Some? ==> r.value.message.numero == msg.key.remoteJid && r.value.message.tipo == Store.Recibido
  {
    var p := msg.message.value;
    var k := KindOf(p);
    if k == Text then
      var texto := TextOf(p);
      Some(Record(Row(msg.key.remoteJid, texto, fecha, None, None, 0), texto))
    else MediaRecord(msg.key.remoteJid, fecha, k, MediaOf(p, k), now, downloadOk, writeOk)
  }

  /** The contact name: `pushName || "Desconocido"`. */
  function SenderName(msg: WaMessage): string {
    Text.OrElse(msg.pushName, "Desconocido")
  }

  /** The effect of one `messages.upsert` event, when it has one. */
  datatype Received = Received(numero: string, contacto: string, record: Record)

  /** An event has an effect exactly when its first message is accepted
      and recorded; the effect names that message's sender. */
  function Receive(messages: Option<seq<WaMessage>>, fecha: string, now: nat, downloadOk: bool, writeOk: bool): (r: Option<Received>)
    ensures r.Some? <==> Accepted(messages).Some? && RecordOf(Accepted(messages).value, fecha, now, downloadOk, writeOk).Some?
    ensures r.Some? ==>
      var msg := Accepted(messages).value;
      && msg == messages.value[0]
      && r.value.numero == msg.key.remoteJid && r.value.contacto == SenderName(msg) && r.value.contacto != []
      && Some(r.value.record) == RecordOf(msg, fecha, now, downloadOk, writeOk)
  {
    match Accepted(messages)
    case None => None
    case Some(msg) =>
      match RecordOf(msg, fecha, now, downloadOk, writeOk)
      case None => None
      case Some(rec) => Some(Received(msg.key.remoteJid, SenderName(msg), rec))
  }

  /** Empty events, the account's own messages and messages without a
      payload leave nothing. */
  lemma IgnoredEvents(messages: Option<seq<WaMessage>>, fecha: string, now: nat, downloadOk: bool, writeOk: bool)
    requires messages.None? || |messages.value| == 0 || messages.value[0].key.fromMe || messages.value[0].message.None?
    ensures Receive(messages, fecha, now, downloadOk, writeOk).None?
  {
  }

  /** Every row an event leaves is an incoming message of the sender,
      stamped with the event's date; a media row is the one `MediaRecord`
      describes (flag 1, the stored file under the kind's folder, the
      caption defaulting to the kind's label); text rows carry flag 0, no
      file and no MIME type. */
  lemma ReceivedRow(messages: Option<seq<WaMessage>>, fecha: string, now: nat, downloadOk: bool, writeOk: bool)
    requires Receive(messages, fecha, now, downloadOk, writeOk).Some?
    ensures var rc := Receive(messages, fecha, now, downloadOk, writeOk).value;
      var msg := messages.value[0];
      var p := msg.message.value;
      var row := rc.record.message;
      && !msg.key.fromMe
      && rc.numero == msg.key.remoteJid == row.numero
      && rc.contacto == SenderName(msg)
      && row.tipo == Store.Recibido && row.fecha == fecha
      && (KindOf(p) == Text ==>
            row.esMultimedia == 0 && row.archivo.None? && row.mimeType.None? && row.mensaje == TextOf(p) == rc.record.aviso)
      && (KindOf(p) != Text ==>
            && Some(rc.record) == MediaRecord(rc.numero, fecha, KindOf(p), MediaOf(p, KindOf(p)), now, downloadOk, writeOk)
            && row.esMultimedia == 1
            && row.archivo == Some(PublicFolder(KindOf(p)) + StoredFileName(KindOf(p), MediaOf(p, KindOf(p)), now))
            && row.mensaje == Text.OrElse(MediaOf(p, KindOf(p)).caption, rc.record.aviso))
  {
    var msg := messages.value[0];
    var p := msg.message.value;
    if KindOf(p) != Text {
      var r := MediaRecord(msg.key.remoteJid, fecha, KindOf(p), MediaOf(p, KindOf(p)), now, downloadOk, writeOk);
      assert r.Some?;
    }
  }

  /** An accepted event leaves nothing exactly when its media download
      fails, its image or video has no MIME type, or writing its file
      fails; text always lands. */
  lemma LostEvents(messages: Option<seq<WaMessage>>, fecha: string, now: nat, downloadOk: bool, writeOk: bool)
    requires Accepted(messages).Some?
    ensures var p := messages.value[0].message.value;
      var k := KindOf(p);
      Receive(messages, fecha, now, downloadOk, writeOk).None? <==>
        k != Text && (!downloadOk || ((k == Image || k == Video) && MediaOf(p, k).mimetype.None?) || !writeOk)
  {
  }

  // -----------------------------------------------------------------------
  // Notification slot (`public/notify.json`)
  // -----------------------------------------------------------------------

  datatype Notice = Notice(numero: string, nombre: string, mensaje: string, fecha: string)

  /** `crearNotificacion`: the text cut to its first 100 characters. */
  function NoticeFor(numero: string, nombre: string, texto: string, fecha: string): (n: Notice)
    ensures n.numero == numero && n.nombre == nombre && n.fecha == fecha
    ensures |n.mensaje| <= 100 && Text.StartsWith(texto, n.mensaje)
    ensures |texto| <= 100 ==> n.mensaje == texto
    ensures |texto| > 100 ==> |n.mensaje| == 100
  {
    Notice(numero, nombre, Text.Take(texto, 100), fecha)
  }

  /** The single notification file: every write replaces the previous
      notification. */
  class Notifier {
    var current: Option<Notice>

    constructor ()
      ensures current == None
    {
      current := None;
    }

    method Publish(n: Notice)
      modifies this
      ensures current == Some(n)
    {
      current := Some(n);
    }
  }

  /** The `messages.upsert` handler: log the row, upsert the sender, then
      overwrite the notification; an event with nothing to record changes
      nothing. */
  method OnMessagesUpsert(store: Store.ContactStore, notifier: Notifier,
                          messages: Option<seq<WaMessage>>, fecha: string, now: nat, downloadOk: bool, writeOk: bool)
    requires store.Valid()
    modifies store, notifier
    ensures store.Valid()
    ensures Receive(messages, fecha, now, downloadOk, writeOk).None? ==>
      && store.Rows() == old(store.Rows()) && store.mensajes == old(store.mensajes)
      && notifier.current == old(notifier.current)
    ensures Receive(messages, fecha, now, downloadOk, writeOk).Some? ==>
      var rc := Receive(messages, fecha, now, downloadOk, writeOk).value;
      && store.mensajes == old(store.mensajes) + [rc.record.message]
      && store.Rows() == Store.Upserted(old(store.Rows()), rc.numero, rc.contacto, fecha)
      && notifier.current == Some(NoticeFor(rc.numero, rc.contacto, rc.record.aviso, fecha))
  {
    var received := Receive(messages, fecha, now, downloadOk, writeOk);
    if received.None? {
      return;
    }
    var rc := received.value;
    store.LogMessage(rc.record.message);
    store.Upsert(rc.numero, rc.contacto, fecha);
    notifier.Publish(NoticeFor(rc.numero, rc.contacto, rc.record.aviso, fecha));
  }
}
