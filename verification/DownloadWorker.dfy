/**
 The streaming download worker: a page opens a channel per download, the worker
 registers a stream for it, and the browser's navigation to the download path is
 answered with that stream. Page, worker and browser act in any order.
 */
module DownloadWorker {
  import opened Common

  type Bytes = seq<bv8>

  // -------------------------------------------------------------------
  // A readable stream with a default controller (WHATWG Streams, section 4.6)
  // -------------------------------------------------------------------

  datatype StreamState = Readable | Closed | Errored

  /** `closing` is the controller's closeRequested; `delivered` is what the reader has taken so far. */
  datatype Stream = Stream(queue: seq<Bytes>, closing: bool, state: StreamState, cancelled: bool, delivered: seq<Bytes>)

  const NEW_STREAM := Stream([], false, Readable, false, [])

  /** enqueue throws, and the worker drops the chunk, once the stream is closing, closed or errored. */
  function Enqueue(s: Stream, chunk: Bytes): Stream {
    if s.state.Readable? && !s.closing then s.(queue := s.queue + [chunk]) else s
  }

  /** close waits for the queue to drain. */
  function CloseStream(s: Stream): Stream {
    if s.state.Readable? && !s.closing
    then s.(closing := true, state := if s.queue == [] then Closed else Readable) else s
  }

  /** error discards what is queued, even after close was requested. */
  function ErrorStream(s: Stream): Stream {
    if s.state.Readable? then s.(queue := [], state := Errored) else s
  }

  function CancelStream(s: Stream): Stream {
    if s.state.Readable? then s.(queue := [], state := Closed, cancelled := true) else s
  }

  function ReadStream(s: Stream): Stream {
    if s.state.Readable? && s.queue != []
    then s.(queue := s.queue[1..], delivered := s.delivered + [s.queue[0]],
            state := if s.closing && |s.queue| == 1 then Closed else Readable)
    else s
  }

  predicate EndedNormally(s: Stream) {
    s.state.Closed? && !s.cancelled
  }

  // -------------------------------------------------------------------
  // Channels and the registry
  // -------------------------------------------------------------------

  /** What the page posts on a channel; Other stands for anything the worker does not recognise. */
  datatype Message = Chunk(data: Bytes) | Close | Abort | Other

  /** What the worker posts back. */
  datatype Reply = InitAck | Cancelled | Drained

  /** One download: its stream, the messages of its port in order, and the replies in order. */
  datatype Channel = Channel(id: string, stream: Stream, handled: seq<Message>, pending: seq<Message>,
                             replies: seq<Reply>)

  function Posted(ch: Channel): seq<Message> {
    ch.handled + ch.pending
  }

  datatype Entry = Entry(filename: string, mime: string, channel: nat)

  datatype Response = NotFound | Attachment(filename: string, mime: string, channel: nat)

  /** A download-init message; a field of the wrong type is None, `early` is what is already queued on the port. */
  datatype Init = Init(id: Option<string>, filename: Option<string>, mime: Option<string>, hasPort: bool,
                       early: seq<Message>)

  predicate Acceptable(m: Init) {
    m.hasPort && m.id.Some?
  }

  const DOWNLOAD_PATH := "/sw-download/"

  predicate IdChar(c: char) {
    'a' <= c <= 'z' || 'A' <= c <= 'Z' || '0' <= c <= '9' || c == '-'
  }

  predicate IsId(id: string) {
    id != "" && forall i :: 0 <= i < |id| ==> IdChar(id[i])
  }

  /** The path pattern: the prefix, then one or more letters, digits or dashes, then nothing. */
  function DownloadId(path: string): Option<string> {
    if |path| >= |DOWNLOAD_PATH| && path[..|DOWNLOAD_PATH|] == DOWNLOAD_PATH && IsId(path[|DOWNLOAD_PATH|..])
    then Some(path[|DOWNLOAD_PATH|..]) else None
  }

  /** By code point: digits, capitals, small letters and the dash. */
  lemma IdsExactly(id: string)
    ensures IsId(id) <==>
            && |id| > 0
            && forall i :: 0 <= i < |id| ==>
                 var c := id[i] as int; 48 <= c <= 57 || 65 <= c <= 90 || 97 <= c <= 122 || c == 45
  {
  }

  /** A page that navigates to its own id is understood exactly if the id has only such characters. */
  lemma OwnPathIsRecognised(id: string)
    ensures DownloadId("/sw-download/" + id) == if IsId(id) then Some(id) else None
  {
    assert (DOWNLOAD_PATH + id)[|DOWNLOAD_PATH|..] == id;
  }

  /** And no other path is taken for it. */
  lemma OnlyOwnPathIsRecognised(path: string, id: string)
    ensures DownloadId(path) == Some(id) ==> path == DOWNLOAD_PATH + id && IsId(id)
  {
    if DownloadId(path) == Some(id) {
      assert path == path[..|DOWNLOAD_PATH|] + path[|DOWNLOAD_PATH|..];
    }
  }

  // -------------------------------------------------------------------
  // The whole system
  // -------------------------------------------------------------------

  datatype World = World(downloads: map<string, Entry>, channels: seq<Channel>, responses: seq<Response>)

  const START := World(map[], [], [])

  datatype Event =
    | PageInits(init: Init)
    | PagePosts(channel: nat, message: Message)
    | WorkerReceives(channel: nat)
    | BrowserFetches(sameOrigin: bool, path: string)
    | BrowserReads(response: nat)
    | BrowserCancels(response: nat)

  function Registered(w: World, m: Init): World {
    if !Acceptable(m) then w
    else
      var filename := if m.filename.Some? then m.filename.value else "download";
      var mime := if m.mime.Some? then m.mime.value else "application/octet-stream";
      World(w.downloads[m.id.value := Entry(filename, mime, |w.channels|)],
            w.channels + [Channel(m.id.value, NEW_STREAM, [], m.early, [InitAck])],
            w.responses)
  }

  function Handled(ch: Channel, m: Message): Channel {
    var next := ch.(handled := ch.handled + [m]);
    match m
    case Chunk(data) => next.(stream := Enqueue(ch.stream, data))
    case Close => next.(stream := CloseStream(ch.stream), replies := ch.replies + [Drained])
    case Abort => next.(stream := ErrorStream(ch.stream))
    case Other => next
  }

  function Received(ch: Channel): Channel {
    if ch.pending == [] then ch else Handled(ch.(pending := ch.pending[1..]), ch.pending[0])
  }

  /** The stream's cancel callback tells the page, once. */
  function CancelledBy(ch: Channel): Channel {
    if ch.stream.state.Readable?
    then ch.(stream := CancelStream(ch.stream), replies := ch.replies + [Cancelled]) else ch
  }

  function Fetched(w: World, sameOrigin: bool, path: string): World {
    if !sameOrigin || DownloadId(path).None? then w
    else
      var id := DownloadId(path).value;
      if id !in w.downloads then w.(responses := w.responses + [NotFound])
      else
        var e := w.downloads[id];
        w.(downloads := w.downloads - {id},
           responses := w.responses + [Attachment(e.filename, e.mime, e.channel)])
  }

  predicate Reading(w: World, r: nat) {
    r < |w.responses| && w.responses[r].Attachment? && w.responses[r].channel < |w.channels|
  }

  function Step(w: World, e: Event): World {
    match e
    case PageInits(m) => Registered(w, m)
    case PagePosts(i, m) =>
      if i >= |w.channels| then w
      else w.(channels := w.channels[i := w.channels[i].(pending := w.channels[i].pending + [m])])
    case WorkerReceives(i) =>
      if i >= |w.channels| then w else w.(channels := w.channels[i := Received(w.channels[i])])
    case BrowserFetches(sameOrigin, path) => Fetched(w, sameOrigin, path)
    case BrowserReads(r) =>
      if !Reading(w, r) then w
      else
        var i := w.responses[r].channel;
        w.(channels := w.channels[i := w.channels[i].(stream := ReadStream(w.channels[i].stream))])
    case BrowserCancels(r) =>
      if !Reading(w, r) then w
      else
        var i := w.responses[r].channel;
        w.(channels := w.channels[i := CancelledBy(w.channels[i])])
  }

  function Run(w: World, es: seq<Event>): World
    decreases |es|
  {
    if es == [] then w else Run(Step(w, es[0]), es[1..])
  }

  lemma {:induction false} RunOneMore(w: World, es: seq<Event>, e: Event)
    ensures Run(w, es + [e]) == Step(Run(w, es), e)
    decreases |es|
  {
    if es == [] {
      assert [e][1..] == [];
      assert Run(Step(w, e), []) == Step(w, e);
    } else {
      assert (es + [e])[1..] == es[1..] + [e];
      RunOneMore(Step(w, es[0]), es[1..], e);
    }
  }

  /** The worker's own handlers, over its registry and its channels. */
  class Worker {
    var downloads: map<string, Entry>
    var channels: seq<Channel>
    var responses: seq<Response>

    ghost function State(): World
      reads this
    {
      World(downloads, channels, responses)
    }

    constructor ()
      ensures State() == START
    {
      downloads := map[];
      channels := [];
      responses := [];
    }

    method OnMessage(m: Init)
      modifies this
      ensures State() == Step(old(State()), PageInits(m))
    {
      if !m.hasPort || m.id.None? { return; }
      var i := |channels|;
      channels := channels + [Channel(m.id.value, NEW_STREAM, [], m.early, [])];
      downloads := downloads[m.id.value := Entry(
        if m.filename.Some? then m.filename.value else "download",
        if m.mime.Some? then m.mime.value else "application/octet-stream",
        i)];
      channels := channels[i := channels[i].(replies := [InitAck])];
    }

    method OnPortMessage(i: nat)
      requires i < |channels|
      modifies this`channels
      ensures State() == Step(old(State()), WorkerReceives(i))
    {
      var ch := channels[i];
      if ch.pending == [] {
        assert channels == channels[i := ch];
        return;
      }
      var m := ch.pending[0];
      var stream, replies := ch.stream, ch.replies;
      if m.Chunk? {
        stream := Enqueue(stream, m.data);
      } else if m.Close? {
        stream := CloseStream(stream);
        replies := replies + [Drained];
      } else if m.Abort? {
        stream := ErrorStream(stream);
      }
      channels := channels[i := Channel(ch.id, stream, ch.handled + [m], ch.pending[1..], replies)];
    }

    method OnFetch(sameOrigin: bool, path: string)
      modifies this`downloads, this`responses
      ensures State() == Step(old(State()), BrowserFetches(sameOrigin, path))
    {
      if !sameOrigin { return; }
      var id := DownloadId(path);
      if id.None? { return; }
      if id.value !in downloads {
        responses := responses + [NotFound];
        return;
      }
      var entry := downloads[id.value];
      downloads := downloads - {id.value};
      responses := responses + [Attachment(entry.filename, entry.mime, entry.channel)];
    }

    /** The cancel callback of the stream behind a response. */
    method OnCancel(i: nat)
      requires i < |channels|
      modifies this`channels
      ensures channels == old(channels)[i := CancelledBy(old(channels)[i])]
    {
      var ch := channels[i];
      if ch.stream.state.Readable? {
        channels := channels[i := ch.(stream := CancelStream(ch.stream), replies := ch.replies + [Cancelled])];
      } else {
        assert channels == channels[i := ch];
      }
    }
  }

  // -------------------------------------------------------------------
  // Delivered bytes
  // -------------------------------------------------------------------

  predicate Terminated(ms: seq<Message>) {
    exists i :: 0 <= i < |ms| && (ms[i].Close? || ms[i].Abort?)
  }

  /** The chunks up to the first close or abort. */
  function Sent(ms: seq<Message>): seq<Bytes> {
    if ms == [] || ms[0].Close? || ms[0].Abort? then []
    else (if ms[0].Chunk? then [ms[0].data] else []) + Sent(ms[1..])
  }

  lemma {:induction false} SentOneMore(ms: seq<Message>, m: Message)
    ensures Sent(ms + [m]) == Sent(ms) + if !Terminated(ms) && m.Chunk? then [m.data] else []
    ensures Terminated(ms + [m]) <==> Terminated(ms) || m.Close? || m.Abort?
    decreases |ms|
  {
    if Terminated(ms) {
      var i :| 0 <= i < |ms| && (ms[i].Close? || ms[i].Abort?);
      assert (ms + [m])[i] == ms[i];
    }
    assert (ms + [m])[|ms|] == m;
    if ms == [] {
      assert [m][1..] == [];
    } else {
      assert (ms + [m])[1..] == ms[1..] + [m];
      SentOneMore(ms[1..], m);
      if ms[0].Close? || ms[0].Abort? {
      } else if Terminated(ms) {
        var i :| 0 <= i < |ms| && (ms[i].Close? || ms[i].Abort?);
        assert ms[1..][i - 1] == ms[i];
      }
    }
  }

  /** The first close or abort. */
  function FirstEnd(ms: seq<Message>): Option<Message> {
    if ms == [] then None
    else if ms[0].Close? || ms[0].Abort? then Some(ms[0]) else FirstEnd(ms[1..])
  }

  lemma {:induction false} FirstEndOneMore(ms: seq<Message>, m: Message)
    ensures FirstEnd(ms + [m]) ==
            if FirstEnd(ms).Some? then FirstEnd(ms) else if m.Close? || m.Abort? then Some(m) else None
    ensures FirstEnd(ms).Some? <==> Terminated(ms)
    decreases |ms|
  {
    if ms == [] {
      assert [m][1..] == [];
    } else {
      assert (ms + [m])[1..] == ms[1..] + [m];
      FirstEndOneMore(ms[1..], m);
      if Terminated(ms) && !(ms[0].Close? || ms[0].Abort?) {
        var i :| 0 <= i < |ms| && (ms[i].Close? || ms[i].Abort?);
        assert ms[1..][i - 1] == ms[i];
      }
    }
  }

  /**
   How the stream ends: it closes by itself only after a close that came before any
   abort, errors only by an abort, and is not open any more once an abort was handled.
   */
  predicate EndsAsTold(ch: Channel) {
    var s, end := ch.stream, FirstEnd(ch.handled);
    && (s.closing || EndedNormally(s) ==> end == Some(Close))
    && (s.state.Readable? ==> Abort !in ch.handled)
    && (s.state.Errored? ==> Abort in ch.handled)
  }

  lemma HandledEndsAsTold(ch: Channel, m: Message)
    requires EndsAsTold(ch) && StreamFaithful(ch)
    ensures EndsAsTold(Handled(ch, m))
  {
    FirstEndOneMore(ch.handled, m);
    assert Abort in ch.handled + [m] <==> Abort in ch.handled || m == Abort;
  }

  lemma {:induction false} SentGrows(ms: seq<Message>, more: seq<Message>)
    ensures Sent(ms) <= Sent(ms + more)
    ensures Terminated(ms) ==> Sent(ms) == Sent(ms + more)
    decreases |more|
  {
    if more == [] {
      assert ms + more == ms;
    } else {
      var last := |more| - 1;
      SentGrows(ms, more[..last]);
      SentOneMore(ms + more[..last], more[last]);
      assert ms + more == ms + more[..last] + [more[last]];
      if Terminated(ms) {
        var i :| 0 <= i < |ms| && (ms[i].Close? || ms[i].Abort?);
        assert (ms + more[..last])[i] == ms[i];
      }
    }
  }

  /** Where the chunks handled so far are: delivered, queued, or dropped by a cancel or an abort. */
  predicate StreamFaithful(ch: Channel) {
    var s, sent := ch.stream, Sent(ch.handled);
    && (s.cancelled ==> s.state.Closed?)
    && match s.state
       case Readable =>
         s.delivered + s.queue == sent && (s.closing <==> Terminated(ch.handled)) && (s.closing ==> s.queue != [])
       case Closed =>
         s.queue == [] && if s.cancelled then s.delivered <= sent else s.delivered == sent && Terminated(ch.handled)
       case Errored =>
         s.queue == [] && s.delivered <= sent && Abort in ch.handled && Terminated(ch.handled)
  }

  /** What the page has been told. */
  predicate RepliesFaithful(ch: Channel) {
    && InitAck in ch.replies
    && (Cancelled in ch.replies <==> ch.stream.cancelled)
    && (Drained in ch.replies <==> Close in ch.handled)
  }

  lemma HandledStaysFaithful(ch: Channel, m: Message)
    requires StreamFaithful(ch) && RepliesFaithful(ch)
    ensures StreamFaithful(Handled(ch, m)) && RepliesFaithful(Handled(ch, m))
  {
    SentOneMore(ch.handled, m);
    var s := ch.stream;
    assert forall d :: s.delivered + (s.queue + [d]) == s.delivered + s.queue + [d];
    assert Sent(ch.handled) <= Sent(ch.handled + [m]);
    assert m in ch.handled + [m];
  }

  lemma ReadStaysFaithful(ch: Channel)
    requires StreamFaithful(ch) && RepliesFaithful(ch)
    ensures var ch' := ch.(stream := ReadStream(ch.stream)); StreamFaithful(ch') && RepliesFaithful(ch')
  {
    var s := ch.stream;
    if s.state.Readable? && s.queue != [] {
      assert s.delivered + s.queue == s.delivered + [s.queue[0]] + s.queue[1..];
    }
  }

  lemma CancelStaysFaithful(ch: Channel)
    requires StreamFaithful(ch) && RepliesFaithful(ch)
    ensures StreamFaithful(CancelledBy(ch)) && RepliesFaithful(CancelledBy(ch))
  {
    assert ch.stream.delivered <= ch.stream.delivered + ch.stream.queue;
    assert forall r :: r in ch.replies ==> r in ch.replies + [Cancelled];
    assert (ch.replies + [Cancelled])[|ch.replies|] == Cancelled;
  }

  // -------------------------------------------------------------------
  // Invariants of the whole system
  // -------------------------------------------------------------------

  predicate ChannelsFaithful(w: World) {
    forall i :: 0 <= i < |w.channels| ==>
      StreamFaithful(w.channels[i]) && RepliesFaithful(w.channels[i]) && EndsAsTold(w.channels[i])
  }

  predicate BoundTo(rs: seq<Response>, r: nat, i: nat)
    requires r < |rs|
  {
    rs[r].Attachment? && rs[r].channel == i
  }

  /** A registry entry points to a channel of its own id that no response has. */
  predicate EntriesUnbound(w: World) {
    forall id :: id in w.downloads ==>
      && w.downloads[id].channel < |w.channels| && w.channels[w.downloads[id].channel].id == id
      && forall r :: 0 <= r < |w.responses| ==> !BoundTo(w.responses, r, w.downloads[id].channel)
  }

  predicate BoundOnce(w: World) {
    && (forall r :: 0 <= r < |w.responses| && w.responses[r].Attachment? ==> w.responses[r].channel < |w.channels|)
    && (forall r, q :: 0 <= r < q < |w.responses| && w.responses[r].Attachment? && w.responses[q].Attachment? ==>
          w.responses[r].channel != w.responses[q].channel)
  }

  predicate Invariant(w: World) {
    ChannelsFaithful(w) && EntriesUnbound(w) && BoundOnce(w)
  }

  lemma StepKeepsChannels(w: World, e: Event)
    requires ChannelsFaithful(w)
    ensures ChannelsFaithful(Step(w, e))
  {
    match e
    case PageInits(m) =>
    case PagePosts(i, m) =>
    case WorkerReceives(i) =>
      if i < |w.channels| && w.channels[i].pending != [] {
        HandledStaysFaithful(w.channels[i].(pending := w.channels[i].pending[1..]), w.channels[i].pending[0]);
        HandledEndsAsTold(w.channels[i].(pending := w.channels[i].pending[1..]), w.channels[i].pending[0]);
      }
    case BrowserFetches(_, _) =>
    case BrowserReads(r) =>
      if Reading(w, r) { ReadStaysFaithful(w.channels[w.responses[r].channel]); }
    case BrowserCancels(r) =>
      if Reading(w, r) { CancelStaysFaithful(w.channels[w.responses[r].channel]); }
  }

  /** Only inits and fetches touch the registry, the responses or the list of ids. */
  predicate SameBindings(w: World, w': World) {
    && w'.downloads == w.downloads && w'.responses == w.responses && |w'.channels| == |w.channels|
    && forall i :: 0 <= i < |w.channels| ==> w'.channels[i].id == w.channels[i].id
  }

  lemma OthersKeepBindings(w: World, e: Event)
    requires !e.PageInits? && !e.BrowserFetches?
    ensures SameBindings(w, Step(w, e))
  {
  }

  lemma StepKeepsBindings(w: World, e: Event)
    requires EntriesUnbound(w) && BoundOnce(w)
    ensures EntriesUnbound(Step(w, e)) && BoundOnce(Step(w, e))
  {
    match e
    case BrowserFetches(sameOrigin, path) => FetchKeepsBindings(w, sameOrigin, path);
    case PageInits(m) => InitKeepsBindings(w, m);
    case _ =>
      OthersKeepBindings(w, e);
      SameKeepsBindings(w, Step(w, e));
  }

  lemma SameKeepsBindings(w: World, w': World)
    requires EntriesUnbound(w) && BoundOnce(w) && SameBindings(w, w')
    ensures EntriesUnbound(w') && BoundOnce(w')
  {
    forall id, r | id in w.downloads && 0 <= r < |w.responses|
      ensures !BoundTo(w'.responses, r, w.downloads[id].channel)
    {
      assert !BoundTo(w.responses, r, w.downloads[id].channel);
    }
  }

  lemma InitKeepsBindings(w: World, m: Init)
    requires EntriesUnbound(w) && BoundOnce(w)
    ensures EntriesUnbound(Registered(w, m)) && BoundOnce(Registered(w, m))
  {
    var w' := Registered(w, m);
    forall id, r | id in w'.downloads && 0 <= r < |w.responses|
      ensures !BoundTo(w'.responses, r, w'.downloads[id].channel)
    {
      if w'.downloads[id].channel < |w.channels| {
        assert !BoundTo(w.responses, r, w.downloads[id].channel);
      }
    }
  }

  lemma FetchKeepsBindings(w: World, sameOrigin: bool, path: string)
    requires EntriesUnbound(w) && BoundOnce(w)
    ensures EntriesUnbound(Fetched(w, sameOrigin, path)) && BoundOnce(Fetched(w, sameOrigin, path))
  {
    var w', n := Fetched(w, sameOrigin, path), |w.responses|;
    if w' != w && w'.responses[n].Attachment? {
      var i := w'.responses[n].channel;
      assert w.channels[i].id == DownloadId(path).value;
      forall r | 0 <= r < n
        ensures w.responses[r].Attachment? ==> w.responses[r].channel != i
      {
        assert !BoundTo(w.responses, r, i);
      }
    }
    forall id, r | id in w'.downloads && 0 <= r < n
      ensures !BoundTo(w'.responses, r, w.downloads[id].channel)
    {
      assert !BoundTo(w.responses, r, w.downloads[id].channel);
    }
  }

  lemma {:induction false} RunKeepsInvariant(w: World, es: seq<Event>)
    requires Invariant(w)
    ensures Invariant(Run(w, es))
    decreases |es|
  {
    if es != [] {
      StepKeepsChannels(w, es[0]);
      StepKeepsBindings(w, es[0]);
      RunKeepsInvariant(Step(w, es[0]), es[1..]);
    }
  }

  /**
   Download integrity, over every run: what a response has delivered is a prefix of
   the chunks posted on its own port before the first close or abort, and all of them
   when it has ended normally. That takes a close that was handled before any abort; once
   an abort was handled nothing more is delivered. No stream is ever behind two responses.
   */
  lemma DeliveryIsFaithful(es: seq<Event>, r: nat)
    requires r < |Run(START, es).responses| && Run(START, es).responses[r].Attachment?
    ensures var w := Run(START, es);
            && Reading(w, r)
            && var ch := w.channels[w.responses[r].channel];
            && ch.stream.delivered <= Sent(Posted(ch))
            && (EndedNormally(ch.stream) ==>
                  ch.stream.delivered == Sent(Posted(ch)) && FirstEnd(ch.handled) == Some(Close))
            && (Abort in ch.handled ==> !ch.stream.state.Readable?)
    ensures var w := Run(START, es);
            forall q :: 0 <= q < |w.responses| && q != r && w.responses[q].Attachment? ==>
              w.responses[q].channel != w.responses[r].channel
  {
    RunKeepsInvariant(START, es);
    var w := Run(START, es);
    var ch := w.channels[w.responses[r].channel];
    assert StreamFaithful(ch);
    SentGrows(ch.handled, ch.pending);
  }

  /** An abort that reaches an open stream makes the download fail, with nothing queued and nothing more delivered. */
  lemma AbortFails(w: World, i: nat)
    requires i < |w.channels| && w.channels[i].pending != [] && w.channels[i].pending[0] == Abort
    ensures var s, s' := w.channels[i].stream, Step(w, WorkerReceives(i)).channels[i].stream;
            if s.state.Readable? then s'.state.Errored? && s'.queue == [] && s'.delivered == s.delivered else s' == s
  {
  }

  /** A read takes the chunk that was queued first, and the last one after a close ends the download. */
  lemma ReadDelivers(w: World, r: nat)
    requires Reading(w, r)
    ensures var i := w.responses[r].channel;
            var s, s' := w.channels[i].stream, Step(w, BrowserReads(r)).channels[i].stream;
            if s.state.Readable? && s.queue != []
            then && s'.delivered + s'.queue == s.delivered + s.queue && |s'.queue| + 1 == |s.queue|
                 && (s'.state.Closed? <==> s.closing && s'.queue == []) && !s'.state.Errored?
            else s' == s
  {
    var s := w.channels[w.responses[r].channel].stream;
    if s.queue != [] {
      assert s.delivered + [s.queue[0]] + s.queue[1..] == s.delivered + s.queue;
    }
  }

  /** A cancel ends an open stream, drops what is queued and tells the page; replies are only ever added at the end. */
  lemma CancelTells(w: World, r: nat)
    requires Reading(w, r)
    ensures var i := w.responses[r].channel;
            var ch, ch' := w.channels[i], Step(w, BrowserCancels(r)).channels[i];
            if ch.stream.state.Readable?
            then && ch'.stream.state.Closed? && ch'.stream.cancelled && ch'.stream.queue == []
                 && ch'.stream.delivered == ch.stream.delivered && ch'.replies == ch.replies + [Cancelled]
            else ch' == ch
  {
  }

  lemma RepliesGrow(w: World, e: Event, i: nat)
    requires i < |w.channels|
    ensures i < |Step(w, e).channels| && w.channels[i].replies <= Step(w, e).channels[i].replies
  {
  }

  /** The messages a download sink posts for its whole file. */
  function Written(chunks: seq<Bytes>): seq<Message> {
    if chunks == [] then [Close] else [Chunk(chunks[0])] + Written(chunks[1..])
  }

  lemma {:induction false} WrittenIsSent(chunks: seq<Bytes>)
    ensures Sent(Written(chunks)) == chunks && Close in Written(chunks) && Abort !in Written(chunks)
    decreases |chunks|
  {
    if chunks != [] {
      WrittenIsSent(chunks[1..]);
      assert Written(chunks)[1..] == Written(chunks[1..]);
    }
  }

  /**
   What a page may conclude from the replies: once it has been told "drained" and
   never "cancelled", none of the chunks of a fully written file was dropped; each is
   delivered or queued for delivery, in order, and nothing can be added.
   */
  lemma DrainedMeansNothingDropped(es: seq<Event>, i: nat, chunks: seq<Bytes>)
    requires i < |Run(START, es).channels| && Posted(Run(START, es).channels[i]) == Written(chunks)
    requires var ch := Run(START, es).channels[i]; Drained in ch.replies && Cancelled !in ch.replies
    ensures var s := Run(START, es).channels[i].stream;
            s.delivered + s.queue == chunks && (s.closing || s.state.Closed?)
  {
    RunKeepsInvariant(START, es);
    var ch := Run(START, es).channels[i];
    WrittenIsSent(chunks);
    assert StreamFaithful(ch) && RepliesFaithful(ch);
    SentGrows(ch.handled, ch.pending);
    assert Terminated(ch.handled) by {
      var k :| 0 <= k < |ch.handled| && ch.handled[k] == Close;
    }
    assert Abort !in ch.handled by {
      assert forall m :: m in ch.handled ==> m in Posted(ch);
    }
  }

  // -------------------------------------------------------------------
  // Which fetches are answered
  // -------------------------------------------------------------------

  /** An accepted init of `id` with no later fetch of it. */
  predicate AwaitsFetch(es: seq<Event>, id: string) {
    if es == [] then false
    else
      var last := es[|es| - 1];
      if last.PageInits? && Acceptable(last.init) && last.init.id == Some(id) then true
      else if last.BrowserFetches? && last.sameOrigin && DownloadId(last.path) == Some(id) then false
      else AwaitsFetch(es[..|es| - 1], id)
  }

  lemma {:induction false} RegistryExactly(es: seq<Event>, id: string)
    ensures id in Run(START, es).downloads <==> AwaitsFetch(es, id)
    decreases |es|
  {
    if es != [] {
      var front, last := es[..|es| - 1], es[|es| - 1];
      RegistryExactly(front, id);
      RunOneMore(START, front, last);
      assert es == front + [last];
    }
  }

  /** The accepted inits, one for each channel. */
  function Inits(es: seq<Event>): seq<Init> {
    if es == [] then []
    else
      var last := es[|es| - 1];
      Inits(es[..|es| - 1]) + if last.PageInits? && last.init.hasPort && last.init.id.Some? then [last.init] else []
  }

  /** The name and type asked for, or else "download" and application/octet-stream. */
  predicate Describes(m: Init, filename: string, mime: string) {
    && (m.filename.Some? ==> filename == m.filename.value)
    && (m.filename.None? ==> filename == "download")
    && (m.mime.Some? ==> mime == m.mime.value)
    && (m.mime.None? ==> mime == "application/octet-stream")
  }

  predicate LastOfId(ms: seq<Init>, i: nat, id: string) {
    i < |ms| && ms[i].id == Some(id) && forall j :: i < j < |ms| ==> ms[j].id != Some(id)
  }

  /** Each entry is of the last init of its id, and each channel of its own. */
  predicate EntriesOfInits(w: World, ms: seq<Init>) {
    && |w.channels| == |ms|
    && (forall id :: id in w.downloads ==>
          && LastOfId(ms, w.downloads[id].channel, id)
          && Describes(ms[w.downloads[id].channel], w.downloads[id].filename, w.downloads[id].mime))
    && (forall i :: 0 <= i < |ms| ==> ms[i].id == Some(w.channels[i].id))
  }

  /** Nothing but a post on its port changes what was posted on a channel. */
  lemma PostedByStep(w: World, e: Event, i: nat)
    requires i < |w.channels|
    ensures i < |Step(w, e).channels| && Step(w, e).channels[i].id == w.channels[i].id
    ensures Posted(Step(w, e).channels[i]) ==
            Posted(w.channels[i]) + if e.PagePosts? && e.channel == i then [e.message] else []
  {
    var ch := w.channels[i];
    if e.WorkerReceives? && e.channel == i && ch.pending != [] {
      assert ch.handled + ch.pending == ch.handled + [ch.pending[0]] + ch.pending[1..];
    } else if e.PagePosts? && e.channel == i {
      assert ch.handled + (ch.pending + [e.message]) == ch.handled + ch.pending + [e.message];
    }
  }

  lemma InitAddsEntry(w: World, ms: seq<Init>, m: Init)
    requires EntriesOfInits(w, ms) && Acceptable(m)
    ensures EntriesOfInits(Registered(w, m), ms + [m])
  {
    var w' := Registered(w, m);
    forall id | id in w'.downloads
      ensures LastOfId(ms + [m], w'.downloads[id].channel, id)
      ensures Describes((ms + [m])[w'.downloads[id].channel], w'.downloads[id].filename, w'.downloads[id].mime)
    {
      if id != m.id.value {
        assert LastOfId(ms, w.downloads[id].channel, id);
      }
    }
  }

  lemma FetchKeepsEntries(w: World, ms: seq<Init>, sameOrigin: bool, path: string)
    requires EntriesOfInits(w, ms)
    ensures EntriesOfInits(Fetched(w, sameOrigin, path), ms)
  {
  }

  lemma SameKeepsEntries(w: World, w': World, ms: seq<Init>)
    requires EntriesOfInits(w, ms) && SameBindings(w, w')
    ensures EntriesOfInits(w', ms)
  {
  }

  lemma StepKeepsEntries(w: World, ms: seq<Init>, e: Event)
    requires EntriesOfInits(w, ms)
    ensures EntriesOfInits(Step(w, e),
                           ms + if e.PageInits? && e.init.hasPort && e.init.id.Some? then [e.init] else [])
  {
    assert ms + [] == ms;
    match e
    case PageInits(m) => if Acceptable(m) { InitAddsEntry(w, ms, m); }
    case BrowserFetches(sameOrigin, path) => FetchKeepsEntries(w, ms, sameOrigin, path);
    case _ =>
      OthersKeepBindings(w, e);
      SameKeepsEntries(w, Step(w, e), ms);
  }

  lemma {:induction false} EntriesAreOfInits(es: seq<Event>)
    ensures EntriesOfInits(Run(START, es), Inits(es))
    decreases |es|
  {
    if es != [] {
      var front, last := es[..|es| - 1], es[|es| - 1];
      EntriesAreOfInits(front);
      RunOneMore(START, front, last);
      assert es == front + [last];
      StepKeepsEntries(Run(START, front), Inits(front), last);
    }
  }

  /** A fetch of an id answers with what is registered under it, if there is anything. */
  lemma FetchOfId(w: World, ms: seq<Init>, id: string)
    requires IsId(id) && EntriesOfInits(w, ms)
    ensures Answers(w, Step(w, BrowserFetches(true, DOWNLOAD_PATH + id)), ms, id, id in w.downloads)
  {
    OwnPathIsRecognised(id);
  }

  /** One response more: the stream, name and type of the last init of the id, or 404. */
  predicate Answers(w: World, w': World, ms: seq<Init>, id: string, found: bool) {
    && |w'.responses| == |w.responses| + 1
    && var r := w'.responses[|w.responses|];
    if !found then r.NotFound?
    else r.Attachment? && LastOfId(ms, r.channel, id) && Describes(ms[r.channel], r.filename, r.mime)
  }

  lemma NothingAwaitedAfterFetch(es: seq<Event>, id: string)
    requires IsId(id)
    ensures !AwaitsFetch(es + [BrowserFetches(true, DOWNLOAD_PATH + id)], id)
  {
    OwnPathIsRecognised(id);
  }

  /**
   A same-origin fetch of an id is answered exactly if the id was initialised and not
   fetched since, and then with the stream, the name and the type of its last init;
   otherwise with 404. In particular a second fetch of a consumed id is a 404.
   */
  lemma FetchIsAnsweredExactly(es: seq<Event>, id: string)
    requires IsId(id)
    ensures var w, w' := Run(START, es), Run(START, es + [BrowserFetches(true, DOWNLOAD_PATH + id)]);
            && Answers(w, w', Inits(es), id, AwaitsFetch(es, id))
            && !AwaitsFetch(es + [BrowserFetches(true, DOWNLOAD_PATH + id)], id)
  {
    EntriesAreOfInits(es);
    RunOneMore(START, es, BrowserFetches(true, DOWNLOAD_PATH + id));
    FetchOfId(Run(START, es), Inits(es), id);
    RegistryExactly(es, id);
    NothingAwaitedAfterFetch(es, id);
  }

  /** What the page posts on port `i`, once there is one. */
  function PostsOn(es: seq<Event>, i: nat): seq<Message> {
    if es == [] then []
    else
      var front, last := es[..|es| - 1], es[|es| - 1];
      PostsOn(front, i) + if last.PagePosts? && last.channel == i && i < |Inits(front)| then [last.message] else []
  }

  /**
   Channels are numbered as their inits were accepted, and the messages of a channel are
   those queued at its init and those posted on its port since, in that order.
   */
  lemma {:induction false} PostedExactly(es: seq<Event>, i: nat)
    requires i < |Inits(es)|
    ensures var w := Run(START, es);
            && |w.channels| == |Inits(es)| && Inits(es)[i].id == Some(w.channels[i].id)
            && Posted(w.channels[i]) == Inits(es)[i].early + PostsOn(es, i)
    decreases |es|
  {
    var front, last := es[..|es| - 1], es[|es| - 1];
    assert es == front + [last];
    RunOneMore(START, front, last);
    EntriesAreOfInits(es);
    EntriesAreOfInits(front);
    var w := Run(START, front);
    if i < |Inits(front)| {
      PostedExactly(front, i);
      PostedByStep(w, last, i);
    } else {
      PostsBefore(front, i);
      assert Posted(Step(w, last).channels[i]) == [] + last.init.early == last.init.early;
    }
  }

  lemma {:induction false} PostsBefore(es: seq<Event>, i: nat)
    requires i >= |Inits(es)|
    ensures PostsOn(es, i) == []
    decreases |es|
  {
    if es != [] {
      PostsBefore(es[..|es| - 1], i);
    }
  }

  /** Everything that is not a download path of this origin falls through untouched. */
  lemma OtherFetchesFallThrough(w: World, sameOrigin: bool, path: string)
    ensures Step(w, BrowserFetches(sameOrigin, path)) == w <==>
            !sameOrigin || !(exists id :: IsId(id) && path == DOWNLOAD_PATH + id)
  {
    if DownloadId(path).Some? {
      OnlyOwnPathIsRecognised(path, DownloadId(path).value);
    }
    if sameOrigin {
      if id :| IsId(id) && path == DOWNLOAD_PATH + id {
        OwnPathIsRecognised(id);
        assert |Step(w, BrowserFetches(sameOrigin, path)).responses| == |w.responses| + 1;
      }
    }
  }

  /** The page has its ack for `id` and its channel is not yet behind a response. */
  predicate AckedAndUnfetched(w: World, id: string) {
    exists i :: 0 <= i < |w.channels| && w.channels[i].id == id && InitAck in w.channels[i].replies
                && Unfetched(w.responses, i)
  }

  predicate Unfetched(rs: seq<Response>, i: nat) {
    forall r :: 0 <= r < |rs| ==> !BoundTo(rs, r, i)
  }

  /** The page's side of the protocol: fresh ids, and one navigation per id, after the ack. */
  predicate Polite(w: World, e: Event) {
    match e
    case PageInits(m) =>
      Acceptable(m) ==> IsId(m.id.value) && forall i :: 0 <= i < |w.channels| ==> w.channels[i].id != m.id.value
    case BrowserFetches(sameOrigin, path) =>
      sameOrigin && DownloadId(path).Some? ==> AckedAndUnfetched(w, DownloadId(path).value)
    case _ => true
  }

  predicate AllPolite(w: World, es: seq<Event>)
    decreases |es|
  {
    es == [] || (Polite(w, es[0]) && AllPolite(Step(w, es[0]), es[1..]))
  }

  /** Every channel that is not behind a response is in the registry, and nothing was missed so far. */
  predicate NoneLost(w: World) {
    && (forall i :: 0 <= i < |w.channels| && Unfetched(w.responses, i) ==>
          w.channels[i].id in w.downloads && w.downloads[w.channels[i].id].channel == i)
    && (forall i, j :: 0 <= i < j < |w.channels| ==> w.channels[i].id != w.channels[j].id)
    && (forall r :: 0 <= r < |w.responses| ==> w.responses[r].Attachment?)
  }

  lemma StepLosesNone(w: World, e: Event)
    requires NoneLost(w) && EntriesUnbound(w) && BoundOnce(w) && Polite(w, e)
    ensures NoneLost(Step(w, e))
  {
    match e
    case BrowserFetches(sameOrigin, path) =>
      if sameOrigin && DownloadId(path).Some? {
        FetchLosesNone(w, path);
      }
    case PageInits(m) =>
      if Acceptable(m) { InitLosesNone(w, m); }
    case _ =>
      OthersKeepBindings(w, e);
      SameLosesNone(w, Step(w, e));
  }

  lemma SameLosesNone(w: World, w': World)
    requires NoneLost(w) && SameBindings(w, w')
    ensures NoneLost(w')
  {
  }

  lemma InitLosesNone(w: World, m: Init)
    requires NoneLost(w) && Acceptable(m)
    requires forall i :: 0 <= i < |w.channels| ==> w.channels[i].id != m.id.value
    ensures NoneLost(Registered(w, m))
  {
  }

  lemma FetchLosesNone(w: World, path: string)
    requires NoneLost(w) && DownloadId(path).Some? && AckedAndUnfetched(w, DownloadId(path).value)
    ensures NoneLost(Fetched(w, true, path))
  {
    var id := DownloadId(path).value;
    var w' := Fetched(w, true, path);
    assert id in w.downloads;
    assert BoundTo(w'.responses, |w.responses|, w.downloads[id].channel);
    forall i | 0 <= i < |w.channels| && Unfetched(w'.responses, i)
      ensures Unfetched(w.responses, i) && w.channels[i].id != id
    {
      forall r | 0 <= r < |w.responses|
        ensures !BoundTo(w.responses, r, i)
      {
        assert !BoundTo(w'.responses, r, i);
      }
      assert i != w.downloads[id].channel;
    }
  }

  lemma {:induction false} PoliteRunsLoseNone(w: World, es: seq<Event>)
    requires Invariant(w) && NoneLost(w) && AllPolite(w, es)
    ensures NoneLost(Run(w, es))
    decreases |es|
  {
    if es != [] {
      StepLosesNone(w, es[0]);
      StepKeepsChannels(w, es[0]);
      StepKeepsBindings(w, es[0]);
      PoliteRunsLoseNone(Step(w, es[0]), es[1..]);
    }
  }

  /** Navigating only after init-ack, with ids used once, no fetch is ever answered 404. */
  lemma NeverNotFound(es: seq<Event>, r: nat)
    requires AllPolite(START, es) && r < |Run(START, es).responses|
    ensures Run(START, es).responses[r].Attachment?
  {
    PoliteRunsLoseNone(START, es);
  }
}
