/**
 * The conversations API client: the entities it exchanges, the query strings
 * its list requests encode, and the HTTP method, path and body each operation
 * hands to the injected request collaborator.
 */
module Conversation {
  import opened Wrappers
  import opened Strings
  import opened Strconv
  import opened UrlEscape
  import opened UrlValues

  // ---------------------------------------------------------------------
  // Entities

  /** A conversation's status: any string, of which two are named. */
  type ConversationStatus = Bytes

  /** The conversation is active; a contact has at most one such conversation. */
  const StatusActive: ConversationStatus := "active"
  /** The conversation is archived; a new message from the contact opens a new one. */
  const StatusArchived: ConversationStatus := "archived"

  datatype Channel = Channel(id: Bytes, name: Bytes, platformId: Bytes, status: Bytes)

  datatype MessagesCount = MessagesCount(href: Bytes, totalCount: Int64, lastMessageId: Bytes)

  datatype Conversation = Conversation(
    id: Bytes,
    contactId: Bytes,
    channels: seq<Option<Channel>>,
    status: ConversationStatus,
    lastUsedChannelId: Bytes,
    lastUsedPlatformId: Bytes,
    messages: Option<MessagesCount>)

  datatype ConversationList = ConversationList(
    offset: Int64, limit: Int64, count: Int64, totalCount: Int64,
    items: seq<Option<Conversation>>)

  /** A contact's conversations, as bare conversation identifiers. */
  datatype ConversationByContactList = ConversationByContactList(
    offset: Int64, limit: Int64, count: Int64, totalCount: Int64,
    items: seq<Option<Bytes>>)

  datatype StartRequest = StartRequest(
    channelId: Bytes, to: Bytes, messageType: Bytes,
    reportUrl: Bytes, tag: Bytes, trackId: Bytes, eventType: Bytes, ttl: Bytes)

  datatype ReplyRequest = ReplyRequest(
    messageType: Bytes, channelId: Bytes,
    eventType: Bytes, reportUrl: Bytes, tag: Bytes, trackId: Bytes, ttl: Bytes)

  datatype UpdateRequest = UpdateRequest(status: ConversationStatus)

  datatype PaginationRequest = PaginationRequest(limit: Int64, offset: Int64)

  /** Lists conversations; `ids` filters when non-empty, `status` when present. */
  datatype ListRequest = ListRequest(
    pagination: PaginationRequest, ids: Bytes, status: Option<ConversationStatus>)

  /** The by-contact variant: the filter key is `id` instead of `ids`. */
  datatype ListByContactRequest = ListByContactRequest(
    pagination: PaginationRequest, id: Bytes, status: Option<ConversationStatus>)

  // ---------------------------------------------------------------------
  // Query strings

  /** The query keys the list requests write. */
  const KeyIds: Bytes := "ids"
  const KeyId: Bytes := "id"
  const KeyLimit: Bytes := "limit"
  const KeyOffset: Bytes := "offset"
  const KeyStatus: Bytes := "status"

  /** The key under which a list request sends its identifier filter. */
  predicate IdKey(k: Bytes)
  {
    k == KeyIds || k == KeyId
  }

  /**
   * The map a `GetParams` builds: `limit` and `offset` always, the identifier
   * filter only when non-empty, `status` only when present; one value each.
   */
  function FilterValues(idKey: Bytes, p: PaginationRequest, id: Bytes, status: Option<ConversationStatus>): Query
  {
    var base := map[KeyLimit := [Itoa(p.limit)], KeyOffset := [Itoa(p.offset)]];
    var withId := if |id| > 0 then base[idKey := [id]] else base;
    if status.Some? then withId[KeyStatus := [status.value]] else withId
  }

  /** What `ListRequest.GetParams` returns; a nil request gives the empty string. */
  function ListQuery(lr: Option<ListRequest>): Bytes
  {
    match lr
    case None => []
    case Some(r) => EncodeQuery(FilterValues(KeyIds, r.pagination, r.ids, r.status))
  }

  /** What `ListByContactRequest.GetParams` returns. */
  function ListByContactQuery(lr: Option<ListByContactRequest>): Bytes
  {
    match lr
    case None => []
    case Some(r) => EncodeQuery(FilterValues(KeyId, r.pagination, r.id, r.status))
  }

  /** `ListRequest.GetParams`: fills a `url.Values` by `Set` calls and encodes it. */
  method GetListParams(lr: Option<ListRequest>) returns (q: Bytes)
    ensures q == ListQuery(lr)
  {
    if lr.None? {
      return [];
    }
    var r := lr.value;
    var query := new Values();
    query.Set(KeyLimit, Itoa(r.pagination.limit));
    query.Set(KeyOffset, Itoa(r.pagination.offset));
    if |r.ids| > 0 {
      query.Set(KeyIds, r.ids);
    }
    if r.status.Some? {
      query.Set(KeyStatus, r.status.value);
    }
    q := query.Encode();
  }

  /** `ListByContactRequest.GetParams`: the same, with the filter under `id`. */
  method GetListByContactParams(lr: Option<ListByContactRequest>) returns (q: Bytes)
    ensures q == ListByContactQuery(lr)
  {
    if lr.None? {
      return [];
    }
    var r := lr.value;
    var query := new Values();
    query.Set(KeyLimit, Itoa(r.pagination.limit));
    query.Set(KeyOffset, Itoa(r.pagination.offset));
    if |r.id| > 0 {
      query.Set(KeyId, r.id);
    }
    if r.status.Some? {
      query.Set(KeyStatus, r.status.value);
    }
    q := query.Encode();
  }

  // ---------------------------------------------------------------------
  // What the query strings hold

  /** `limit` and `offset` are written verbatim: decimal text needs no escaping. */
  lemma ItoaEscapesToItself(n: int)
    ensures AllUnreserved(Itoa(n))
    ensures QueryEscape(Itoa(n)) == Itoa(n)
  {
    QueryEscapeUnreserved(Itoa(n));
  }

  /** The two named statuses consist of unreserved characters. */
  lemma StatusNamesUnreserved()
    ensures AllUnreserved(StatusActive) && AllUnreserved(StatusArchived)
  {
  }

  /** The two named statuses are written verbatim: `status=active`, `status=archived`. */
  lemma StatusNamesEscapeToThemselves()
    ensures StatusActive != StatusArchived
    ensures QueryEscape(StatusActive) == StatusActive
    ensures QueryEscape(StatusArchived) == StatusArchived
  {
    StatusNamesUnreserved();
    QueryEscapeUnreserved(StatusActive);
    QueryEscapeUnreserved(StatusArchived);
  }

  /** The keys of `FilterValues` in ascending order. */
  function FilterKeys(idKey: Bytes, id: Bytes, status: Option<ConversationStatus>): seq<Bytes>
  {
    (if |id| > 0 then [idKey] else []) + [KeyLimit, KeyOffset] + (if status.Some? then [KeyStatus] else [])
  }

  lemma FilterKeysSorted(idKey: Bytes, p: PaginationRequest, id: Bytes, status: Option<ConversationStatus>)
    requires IdKey(idKey)
    ensures SortedKeys(FilterValues(idKey, p, id, status).Keys) == FilterKeys(idKey, id, status)
  {
    var ks := FilterKeys(idKey, id, status);
    var v := FilterValues(idKey, p, id, status);
    assert Less(idKey, KeyLimit) && Less(idKey, KeyOffset) && Less(idKey, KeyStatus);
    assert Less(KeyLimit, KeyOffset) && Less(KeyLimit, KeyStatus) && Less(KeyOffset, KeyStatus);
    assert StrictlySorted(ks);
    forall k ensures k in ks <==> k in v.Keys {
    }
    SortedUnique(ks, SortedKeys(v.Keys));
  }

  /** The pairs a list request's query holds, in the order they are rendered. */
  function FilterPairs(idKey: Bytes, p: PaginationRequest, id: Bytes, status: Option<ConversationStatus>): seq<Pair>
  {
    (if |id| > 0 then [Pair(idKey, id)] else [])
    + [Pair(KeyLimit, Itoa(p.limit)), Pair(KeyOffset, Itoa(p.offset))]
    + (if status.Some? then [Pair(KeyStatus, status.value)] else [])
  }

  lemma AppendTwo<T>(head: seq<T>, a: T, b: T)
    ensures head + [a] + [b] == head + [a, b]
  {
  }

  /** Appending a key that holds exactly one value appends one pair. */
  lemma PairsOfSingle(v: Query, ks: seq<Bytes>, k: Bytes, x: Bytes)
    requires Lookup(v, k) == [x]
    ensures PairsOf(v, ks + [k]) == PairsOf(v, ks) + [Pair(k, x)]
  {
    assert (ks + [k])[..|ks|] == ks;
    assert ValuePairs(k, [x]) == [Pair(k, x)] by {
      assert [x][..0] == [];
    }
  }

  /** The pairs of `limit`, `offset` and an optional `status` after those of a prefix. */
  lemma PairsOfTail(v: Query, pre: seq<Bytes>, lim: Bytes, off: Bytes, status: Option<ConversationStatus>)
    requires Lookup(v, KeyLimit) == [lim] && Lookup(v, KeyOffset) == [off]
    requires status.Some? ==> Lookup(v, KeyStatus) == [status.value]
    ensures PairsOf(v, pre + [KeyLimit, KeyOffset] + (if status.Some? then [KeyStatus] else [])) ==
      PairsOf(v, pre) + [Pair(KeyLimit, lim), Pair(KeyOffset, off)]
      + (if status.Some? then [Pair(KeyStatus, status.value)] else [])
  {
    PairsOfSingle(v, pre, KeyLimit, lim);
    PairsOfSingle(v, pre + [KeyLimit], KeyOffset, off);
    AppendTwo(pre, KeyLimit, KeyOffset);
    AppendTwo(PairsOf(v, pre), Pair(KeyLimit, lim), Pair(KeyOffset, off));
    var mid := pre + [KeyLimit, KeyOffset];
    if status.Some? {
      PairsOfSingle(v, mid, KeyStatus, status.value);
    } else {
      assert mid + [] == mid;
      assert PairsOf(v, pre) + [Pair(KeyLimit, lim), Pair(KeyOffset, off)] + []
        == PairsOf(v, pre) + [Pair(KeyLimit, lim), Pair(KeyOffset, off)];
    }
  }

  /** The pairs of any query whose keys and single values are those of a list request. */
  lemma FilterPairsOf(v: Query, idKey: Bytes, p: PaginationRequest, id: Bytes, status: Option<ConversationStatus>)
    requires Lookup(v, KeyLimit) == [Itoa(p.limit)] && Lookup(v, KeyOffset) == [Itoa(p.offset)]
    requires |id| > 0 ==> Lookup(v, idKey) == [id]
    requires status.Some? ==> Lookup(v, KeyStatus) == [status.value]
    ensures PairsOf(v, FilterKeys(idKey, id, status)) == FilterPairs(idKey, p, id, status)
  {
    var pre: seq<Bytes> := if |id| > 0 then [idKey] else [];
    if |id| > 0 {
      assert pre == [] + [idKey];
      PairsOfSingle(v, [], idKey, id);
    }
    PairsOfTail(v, pre, Itoa(p.limit), Itoa(p.offset), status);
  }

  /**
   * The query of a non-nil list request holds the identifier filter first
   * when non-empty, then `limit` and `offset` (always, even when zero), then
   * `status` when present: one pair each, in ascending key order.
   */
  lemma FilterQueryPairs(idKey: Bytes, p: PaginationRequest, id: Bytes, status: Option<ConversationStatus>)
    requires IdKey(idKey)
    ensures EncodeQuery(FilterValues(idKey, p, id, status)) == EncodePairs(FilterPairs(idKey, p, id, status))
  {
    FilterKeysSorted(idKey, p, id, status);
    FilterValuesShape(idKey, p, id, status);
    FilterPairsOf(FilterValues(idKey, p, id, status), idKey, p, id, status);
  }

  // ---------------------------------------------------------------------
  // Reading a list query back

  /** What `url.Values.Get` returns: the first value of `k`, or empty. */
  function Get(v: Query, k: Bytes): Bytes
  {
    if k in v && v[k] != [] then v[k][0] else []
  }

  /** Reads the filter of a list request back from a decoded query. */
  function FilterOf(v: Query, idKey: Bytes): Option<(PaginationRequest, Bytes, Option<ConversationStatus>)>
  {
    match (Atoi(Get(v, KeyLimit)), Atoi(Get(v, KeyOffset)))
    case (Some(limit), Some(offset)) =>
      Some((PaginationRequest(limit, offset), Get(v, idKey),
            if KeyStatus in v then Some(Get(v, KeyStatus)) else None))
    case _ => None
  }

  /**
   * Reads back what `ListRequest.GetParams` wrote: the empty string stands
   * for a nil request; anything that does not parse, or lacks a decimal
   * `limit` or `offset`, is an error.
   */
  function DecodeListQuery(q: Bytes): Option<Option<ListRequest>>
  {
    if q == [] then Some(None)
    else
      match ParseQuery(q)
      case None => None
      case Some(v) =>
        match FilterOf(v, KeyIds)
        case None => None
        case Some((p, ids, status)) => Some(Some(ListRequest(p, ids, status)))
  }

  /** The same for `ListByContactRequest.GetParams`, whose filter key is `id`. */
  function DecodeListByContactQuery(q: Bytes): Option<Option<ListByContactRequest>>
  {
    if q == [] then Some(None)
    else
      match ParseQuery(q)
      case None => None
      case Some(v) =>
        match FilterOf(v, KeyId)
        case None => None
        case Some((p, id, status)) => Some(Some(ListByContactRequest(p, id, status)))
  }

  /**
   * The map a list request's query is built from holds `limit` and `offset`
   * with one decimal value each, the identifier filter exactly when it is
   * non-empty, `status` exactly when it is present, and nothing else.
   */
  lemma FilterValuesShape(idKey: Bytes, p: PaginationRequest, id: Bytes, status: Option<ConversationStatus>)
    requires IdKey(idKey)
    ensures var v := FilterValues(idKey, p, id, status);
      && KeyLimit in v && v[KeyLimit] == [Itoa(p.limit)]
      && KeyOffset in v && v[KeyOffset] == [Itoa(p.offset)]
      && (idKey in v <==> |id| > 0)
      && (idKey in v ==> v[idKey] == [id])
      && (KeyStatus in v <==> status.Some?)
      && (KeyStatus in v ==> v[KeyStatus] == [status.value])
      && (forall k :: k in v ==> k == idKey || k == KeyLimit || k == KeyOffset || k == KeyStatus)
      && (forall k :: k in v ==> |v[k]| == 1)
  {
  }

  /** Parsing a list request's query gives back exactly the map it was built from. */
  lemma FilterQueryDecodes(idKey: Bytes, p: PaginationRequest, id: Bytes, status: Option<ConversationStatus>)
    requires IdKey(idKey)
    ensures ParseQuery(EncodeQuery(FilterValues(idKey, p, id, status))) == Some(FilterValues(idKey, p, id, status))
  {
    FilterValuesShape(idKey, p, id, status);
    ParseQueryEncode(FilterValues(idKey, p, id, status));
  }

  /** Decoding the filter of a list request's query gives that filter back. */
  lemma FilterOfValues(idKey: Bytes, p: PaginationRequest, id: Bytes, status: Option<ConversationStatus>)
    requires IdKey(idKey)
    ensures FilterOf(FilterValues(idKey, p, id, status), idKey) == Some((p, id, status))
  {
    var v := FilterValues(idKey, p, id, status);
    AtoiItoa(p.limit);
    AtoiItoa(p.offset);
    assert Get(v, KeyLimit) == Itoa(p.limit);
    assert Get(v, KeyOffset) == Itoa(p.offset);
    assert Get(v, idKey) == id;
  }

  /** A list request's query is empty exactly when the request is nil. */
  lemma ListQueryEmpty(lr: Option<ListRequest>)
    ensures ListQuery(lr) == [] <==> lr.None?
  {
    if lr.Some? {
      var r := lr.value;
      FilterQueryPairs(KeyIds, r.pagination, r.ids, r.status);
    }
  }

  lemma ListByContactQueryEmpty(lr: Option<ListByContactRequest>)
    ensures ListByContactQuery(lr) == [] <==> lr.None?
  {
    if lr.Some? {
      var r := lr.value;
      FilterQueryPairs(KeyId, r.pagination, r.id, r.status);
    }
  }

  /** Reading back a list request's query gives the request, nil included. */
  lemma ListQueryRoundTrip(lr: Option<ListRequest>)
    ensures DecodeListQuery(ListQuery(lr)) == Some(lr)
  {
    ListQueryEmpty(lr);
    if lr.Some? {
      var r := lr.value;
      FilterQueryDecodes(KeyIds, r.pagination, r.ids, r.status);
      FilterOfValues(KeyIds, r.pagination, r.ids, r.status);
    }
  }

  lemma ListByContactQueryRoundTrip(lr: Option<ListByContactRequest>)
    ensures DecodeListByContactQuery(ListByContactQuery(lr)) == Some(lr)
  {
    ListByContactQueryEmpty(lr);
    if lr.Some? {
      var r := lr.value;
      FilterQueryDecodes(KeyId, r.pagination, r.id, r.status);
      FilterOfValues(KeyId, r.pagination, r.id, r.status);
    }
  }

  // ---------------------------------------------------------------------
  // Requests handed to the collaborator

  /**
   * The package's path constants: the conversations resource, and the
   * segments for a contact's conversations, for starting one and for its
   * messages. Their values are set outside this file and are parameters
   * here; a reply is told apart from a start only while the start segment
   * holds no '/'.
   */
  datatype Paths = Paths(path: Bytes, contactPath: Bytes, startConversationPath: Bytes, messagesPath: Bytes)

  /** A single path segment, with no separator of the path or the query. */
  predicate Segment(s: Bytes)
  {
    '/' !in s && '?' !in s
  }

  /** `http.MethodGet`, `http.MethodPost`, `http.MethodPatch`. */
  datatype Method = MethodGet | MethodPost | MethodPatch

  /** The request data passed along, or none (`nil`). */
  datatype Body =
    | NoBody
    | StartBody(start: Option<StartRequest>)
    | ReplyBody(reply: Option<ReplyRequest>)
    | UpdateBody(update: Option<UpdateRequest>)

  /** What an operation asks the collaborator for: an HTTP method, a path and a body. */
  datatype Route = Route(verb: Method, target: Bytes, body: Body)

  function ListRoute(ps: Paths, options: Option<ListRequest>): Route
  {
    Route(MethodGet, ps.path + "?" + ListQuery(options), NoBody)
  }

  function ListByContactRoute(ps: Paths, contactId: Bytes, paginationQuery: Bytes): Route
  {
    Route(MethodGet, ps.path + "/" + ps.contactPath + "/" + contactId + "?" + paginationQuery, NoBody)
  }

  function ReadRoute(ps: Paths, id: Bytes): Route
  {
    Route(MethodGet, ps.path + "/" + id, NoBody)
  }

  function StartRoute(ps: Paths, req: Option<StartRequest>): Route
  {
    Route(MethodPost, ps.path + "/" + ps.startConversationPath, StartBody(req))
  }

  function ReplyRoute(ps: Paths, conversationId: Bytes, req: Option<ReplyRequest>): Route
  {
    Route(MethodPost, ps.path + "/" + conversationId + "/" + ps.messagesPath, ReplyBody(req))
  }

  function UpdateRoute(ps: Paths, id: Bytes, req: Option<UpdateRequest>): Route
  {
    Route(MethodPatch, ps.path + "/" + id, UpdateBody(req))
  }

  /**
   * The collaborator fills a holder and reports an error or none; an
   * operation returns the holder only when there is no error, and passes
   * the error through unchanged otherwise.
   */
  function Complete<R, E>(outcome: (R, Option<E>)): (r: Result<R, E>)
    ensures outcome.1.Some? ==> r == Failure(outcome.1.value)
    ensures outcome.1.None? ==> r == Success(outcome.0)
  {
    match outcome.1
    case Some(err) => Failure(err)
    case None => Success(outcome.0)
  }

  /** `List`: one GET of the resource, the list request's query after '?'. */
  function List<E>(ps: Paths, request: Route -> (ConversationList, Option<E>), options: Option<ListRequest>): (r: Result<ConversationList, E>)
    ensures var (holder, err) := request(Route(MethodGet, ps.path + "?" + ListQuery(options), NoBody));
      && (r.Failure? <==> err.Some?)
      && (err.Some? ==> r.error == err.value)
      && (err.None? ==> r.value == holder)
  {
    Complete(request(ListRoute(ps, options)))
  }

  /**
   * `ListByContact`: one GET of the contact's conversations, the pagination
   * query after '?'. `paginationParams` is `PaginationRequest.GetParams`.
   */
  function ListByContact<E>(ps: Paths, request: Route -> (ConversationByContactList, Option<E>),
                            paginationParams: Option<PaginationRequest> -> Bytes,
                            contactId: Bytes, options: Option<PaginationRequest>): (r: Result<ConversationByContactList, E>)
    ensures var (holder, err) := request(Route(MethodGet, ps.path + "/" + ps.contactPath + "/" + contactId + "?" + paginationParams(options), NoBody));
      && (r.Failure? <==> err.Some?)
      && (err.Some? ==> r.error == err.value)
      && (err.None? ==> r.value == holder)
  {
    Complete(request(ListByContactRoute(ps, contactId, paginationParams(options))))
  }

  /** `Read`: one GET of the conversation's own path. */
  function Read<E>(ps: Paths, request: Route -> (Conversation, Option<E>), id: Bytes): (r: Result<Conversation, E>)
    ensures var (holder, err) := request(Route(MethodGet, ps.path + "/" + id, NoBody));
      && (r.Failure? <==> err.Some?)
      && (err.Some? ==> r.error == err.value)
      && (err.None? ==> r.value == holder)
  {
    Complete(request(ReadRoute(ps, id)))
  }

  /** `Start`: one POST to the start path with the start request as body. */
  function Start<E>(ps: Paths, request: Route -> (Conversation, Option<E>), req: Option<StartRequest>): (r: Result<Conversation, E>)
    ensures var (holder, err) := request(Route(MethodPost, ps.path + "/" + ps.startConversationPath, StartBody(req)));
      && (r.Failure? <==> err.Some?)
      && (err.Some? ==> r.error == err.value)
      && (err.None? ==> r.value == holder)
  {
    Complete(request(StartRoute(ps, req)))
  }

  /** `Reply`: one POST to the conversation's messages; the result is the message sent. */
  function Reply<M, E>(ps: Paths, request: Route -> (M, Option<E>), conversationId: Bytes, req: Option<ReplyRequest>): (r: Result<M, E>)
    ensures var (holder, err) := request(Route(MethodPost, ps.path + "/" + conversationId + "/" + ps.messagesPath, ReplyBody(req)));
      && (r.Failure? <==> err.Some?)
      && (err.Some? ==> r.error == err.value)
      && (err.None? ==> r.value == holder)
  {
    Complete(request(ReplyRoute(ps, conversationId, req)))
  }

  /** `Update`: one PATCH of the conversation's own path with the update as body. */
  function Update<E>(ps: Paths, request: Route -> (Conversation, Option<E>), id: Bytes, req: Option<UpdateRequest>): (r: Result<Conversation, E>)
    ensures var (holder, err) := request(Route(MethodPatch, ps.path + "/" + id, UpdateBody(req)));
      && (r.Failure? <==> err.Some?)
      && (err.Some? ==> r.error == err.value)
      && (err.None? ==> r.value == holder)
  {
    Complete(request(UpdateRoute(ps, id, req)))
  }

  // ---------------------------------------------------------------------
  // Reading a request back: which operation a method, path and body denote

  datatype Operation =
    | ListOp(query: Bytes)
    | ListByContactOp(contactId: Bytes, paginationQuery: Bytes)
    | ReadOp(id: Bytes)
    | StartOp(start: Option<StartRequest>)
    | ReplyOp(conversationId: Bytes, reply: Option<ReplyRequest>)
    | UpdateOp(updateId: Bytes, update: Option<UpdateRequest>)

  /** `s` without its leading `prefix`, if it has one. */
  function StripPrefix(prefix: Bytes, s: Bytes): (r: Option<Bytes>)
    ensures r.Some? <==> |prefix| <= |s| && s[..|prefix|] == prefix
    ensures r.Some? ==> s == prefix + r.value
  {
    if |prefix| <= |s| && s[..|prefix|] == prefix then Some(s[|prefix|..]) else None
  }

  /** The operation a GET of `path/t` denotes. */
  function ParseGet(ps: Paths, t: Bytes): Option<Operation>
  {
    match StripPrefix(ps.contactPath + "/", t)
    case Some(u) =>
      if '?' in u then Some(ListByContactOp(Cut(u, '?').0, Cut(u, '?').1)) else None
    case None =>
      if Segment(t) then Some(ReadOp(t)) else None
  }

  /** The operation a POST of `path/t` denotes. */
  function ParsePost(ps: Paths, t: Bytes, body: Body): Option<Operation>
  {
    if t == ps.startConversationPath then
      if body.StartBody? then Some(StartOp(body.start)) else None
    else if '/' in t && Cut(t, '/').1 == ps.messagesPath && body.ReplyBody? then
      Some(ReplyOp(Cut(t, '/').0, body.reply))
    else None
  }

  /**
   * Routes a request to the operation that issues it: the partner of the
   * route builders above.
   */
  function ParseRoute(ps: Paths, r: Route): Option<Operation>
  {
    match StripPrefix(ps.path, r.target)
    case None => None
    case Some(rest) =>
      if rest == [] then None
      else if rest[0] == '?' then
        if r.verb == MethodGet && r.body == NoBody then Some(ListOp(rest[1..])) else None
      else if rest[0] != '/' then None
      else
        var t := rest[1..];
        match r.verb
        case MethodGet => if r.body == NoBody then ParseGet(ps, t) else None
        case MethodPost => ParsePost(ps, t, r.body)
        case MethodPatch =>
          if Segment(t) && r.body.UpdateBody? then Some(UpdateOp(t, r.body.update)) else None
  }

  /** The part of a route's target after the resource path. */
  lemma TargetAfterPath(ps: Paths, sep: Octet, tail: Bytes)
    ensures StripPrefix(ps.path, ps.path + [sep] + tail) == Some([sep] + tail)
  {
    var s := ps.path + [sep] + tail;
    assert s[..|ps.path|] == ps.path;
    assert s[|ps.path|..] == [sep] + tail;
  }

  lemma ListRouteParses(ps: Paths, options: Option<ListRequest>)
    ensures ParseRoute(ps, ListRoute(ps, options)) == Some(ListOp(ListQuery(options)))
  {
    var q := ListQuery(options);
    TargetAfterPath(ps, '?', q);
    assert ps.path + "?" + q == ps.path + ['?'] + q;
  }

  /** A nil list request leaves a bare '?' after the resource path, and only then. */
  lemma ListRouteBare(ps: Paths, options: Option<ListRequest>)
    ensures ListRoute(ps, options).target == ps.path + "?" <==> options.None?
  {
    ListQueryEmpty(options);
    var q := ListQuery(options);
    if ps.path + "?" + q == ps.path + "?" {
      assert |q| == 0;
    }
  }

  /** After the resource path and '/', each method is read by its own rules. */
  lemma RouteAfterSlash(ps: Paths, r: Route, t: Bytes)
    requires r.target == ps.path + ['/'] + t
    ensures r.verb == MethodGet ==> ParseRoute(ps, r) == (if r.body == NoBody then ParseGet(ps, t) else None)
    ensures r.verb == MethodPost ==> ParseRoute(ps, r) == ParsePost(ps, t, r.body)
    ensures r.verb == MethodPatch ==>
      ParseRoute(ps, r) == (if Segment(t) && r.body.UpdateBody? then Some(UpdateOp(t, r.body.update)) else None)
  {
    TargetAfterPath(ps, '/', t);
  }

  lemma ParseGetContact(ps: Paths, contactId: Bytes, paginationQuery: Bytes)
    requires '?' !in contactId
    ensures ParseGet(ps, ps.contactPath + ['/'] + (contactId + ['?'] + paginationQuery))
         == Some(ListByContactOp(contactId, paginationQuery))
  {
    var cp := ps.contactPath + "/";
    var u := contactId + ['?'] + paginationQuery;
    var t := ps.contactPath + ['/'] + u;
    assert t == cp + u;
    assert t[..|cp|] == cp && t[|cp|..] == u;
    CutFirst(u, contactId, paginationQuery, '?');
    assert u[|contactId|] == '?';
  }

  lemma ListByContactRouteParses(ps: Paths, contactId: Bytes, paginationQuery: Bytes)
    requires '?' !in contactId
    ensures ParseRoute(ps, ListByContactRoute(ps, contactId, paginationQuery))
         == Some(ListByContactOp(contactId, paginationQuery))
  {
    var t := ps.contactPath + ['/'] + (contactId + ['?'] + paginationQuery);
    assert ListByContactRoute(ps, contactId, paginationQuery).target == ps.path + ['/'] + t;
    RouteAfterSlash(ps, ListByContactRoute(ps, contactId, paginationQuery), t);
    ParseGetContact(ps, contactId, paginationQuery);
  }

  /** A path segment does not start with the contact segment and '/'. */
  lemma SegmentNotContact(ps: Paths, id: Bytes)
    requires Segment(id)
    ensures StripPrefix(ps.contactPath + "/", id) == None
  {
  }

  lemma ReadRouteParses(ps: Paths, id: Bytes)
    requires Segment(id)
    ensures ParseRoute(ps, ReadRoute(ps, id)) == Some(ReadOp(id))
  {
    RouteAfterSlash(ps, ReadRoute(ps, id), id);
    SegmentNotContact(ps, id);
  }

  lemma StartRouteParses(ps: Paths, req: Option<StartRequest>)
    ensures ParseRoute(ps, StartRoute(ps, req)) == Some(StartOp(req))
  {
    RouteAfterSlash(ps, StartRoute(ps, req), ps.startConversationPath);
  }

  lemma ParsePostReply(ps: Paths, conversationId: Bytes, req: Option<ReplyRequest>)
    requires Segment(ps.startConversationPath) && '/' !in conversationId
    ensures ParsePost(ps, conversationId + ['/'] + ps.messagesPath, ReplyBody(req))
         == Some(ReplyOp(conversationId, req))
  {
    var t := conversationId + ['/'] + ps.messagesPath;
    CutFirst(t, conversationId, ps.messagesPath, '/');
    assert t[|conversationId|] == '/';
  }

  lemma ReplyRouteParses(ps: Paths, conversationId: Bytes, req: Option<ReplyRequest>)
    requires Segment(ps.startConversationPath) && '/' !in conversationId
    ensures ParseRoute(ps, ReplyRoute(ps, conversationId, req)) == Some(ReplyOp(conversationId, req))
  {
    var t := conversationId + ['/'] + ps.messagesPath;
    assert ReplyRoute(ps, conversationId, req).target == ps.path + ['/'] + t;
    RouteAfterSlash(ps, ReplyRoute(ps, conversationId, req), t);
    ParsePostReply(ps, conversationId, req);
  }

  lemma UpdateRouteParses(ps: Paths, id: Bytes, req: Option<UpdateRequest>)
    requires Segment(id)
    ensures ParseRoute(ps, UpdateRoute(ps, id, req)) == Some(UpdateOp(id, req))
  {
    RouteAfterSlash(ps, UpdateRoute(ps, id, req), id);
  }

  /**
   * Identifiers are put into paths unescaped: a conversation identifier
   * holding '/' and '?' makes `Read` issue exactly the request `ListByContact`
   * issues, which is why the lemmas above ask for identifiers without them.
   */
  lemma ReadCollidesWithListByContact(ps: Paths, contactId: Bytes, paginationQuery: Bytes)
    ensures ReadRoute(ps, ps.contactPath + "/" + contactId + "?" + paginationQuery)
         == ListByContactRoute(ps, contactId, paginationQuery)
  {
  }
  // ---------------------------------------------------------------------
  // Concrete queries

  /** A pair after at least one other is rendered after a '&'. */
  lemma RenderSnoc(ps: seq<Pair>, p: Pair)
    requires ps != []
    ensures EncodePairs(ps + [p]) == EncodePairs(ps) + "&" + EncodePair(p)
  {
    EncodePairsSnoc(ps, p);
  }

  /** Two pairs render as their renderings joined by '&'. */
  lemma RenderTwo(a: Pair, b: Pair)
    ensures EncodePairs([a, b]) == EncodePair(a) + "&" + EncodePair(b)
  {
    assert EncodePairs([a]) == EncodePair(a) by {
      EncodePairsSnoc([], a);
      assert [] + [a] == [a];
    }
    assert [a] + [b] == [a, b];
    RenderSnoc([a], b);
  }

  /** Four pairs render as their renderings joined by '&'. */
  lemma RenderFour(a: Pair, b: Pair, c: Pair, d: Pair)
    ensures EncodePairs([a, b, c, d])
         == EncodePair(a) + "&" + EncodePair(b) + "&" + EncodePair(c) + "&" + EncodePair(d)
  {
    RenderTwo(a, b);
    assert [a, b] + [c] == [a, b, c];
    RenderSnoc([a, b], c);
    assert [a, b, c] + [d] == [a, b, c, d];
    RenderSnoc([a, b, c], d);
  }

  /** With both filters set, the pairs are the identifier, the pagination and the status. */
  lemma FilterPairsFull(idKey: Bytes, p: PaginationRequest, id: Bytes, status: ConversationStatus)
    requires |id| > 0
    ensures FilterPairs(idKey, p, id, Some(status))
         == [Pair(idKey, id), Pair(KeyLimit, Itoa(p.limit)), Pair(KeyOffset, Itoa(p.offset)), Pair(KeyStatus, status)]
  {
  }

  /** A list request with an identifier filter and a status renders as four pairs. */
  lemma FullListQuery(p: PaginationRequest, ids: Bytes, status: ConversationStatus)
    requires |ids| > 0
    ensures ListQuery(Some(ListRequest(p, ids, Some(status))))
         == EncodePair(Pair(KeyIds, ids)) + "&" + EncodePair(Pair(KeyLimit, Itoa(p.limit)))
            + "&" + EncodePair(Pair(KeyOffset, Itoa(p.offset))) + "&" + EncodePair(Pair(KeyStatus, status))
  {
    FilterQueryPairs(KeyIds, p, ids, Some(status));
    FilterPairsFull(KeyIds, p, ids, status);
    RenderFour(Pair(KeyIds, ids), Pair(KeyLimit, Itoa(p.limit)), Pair(KeyOffset, Itoa(p.offset)), Pair(KeyStatus, status));
  }

  /** A list request with neither filter renders as its two pagination pairs. */
  lemma BareListQuery(p: PaginationRequest)
    ensures ListQuery(Some(ListRequest(p, [], None)))
         == EncodePair(Pair(KeyLimit, Itoa(p.limit))) + "&" + EncodePair(Pair(KeyOffset, Itoa(p.offset)))
  {
    FilterQueryPairs(KeyIds, p, [], None);
    var a, b := Pair(KeyLimit, Itoa(p.limit)), Pair(KeyOffset, Itoa(p.offset));
    assert FilterPairs(KeyIds, p, [], None) == [a, b] by {
      assert [] + [a, b] + [] == [a, b];
    }
    RenderTwo(a, b);
  }

  /** The keys the list requests write consist of unreserved characters. */
  lemma KeysUnreserved()
    ensures AllUnreserved(KeyIds) && AllUnreserved(KeyId)
    ensures AllUnreserved(KeyLimit) && AllUnreserved(KeyOffset) && AllUnreserved(KeyStatus)
  {
  }

  /** A key of unreserved characters is written verbatim before '='. */
  lemma RenderKey(k: Bytes, x: Bytes)
    requires AllUnreserved(k)
    ensures EncodePair(Pair(k, x)) == k + "=" + QueryEscape(x)
  {
    QueryEscapeUnreserved(k);
  }

  /** A decimal value after a key of unreserved characters is written verbatim. */
  lemma RenderDecimal(k: Bytes, n: int)
    requires AllUnreserved(k)
    ensures EncodePair(Pair(k, Itoa(n))) == k + "=" + Itoa(n)
  {
    RenderKey(k, Itoa(n));
    ItoaEscapesToItself(n);
  }

  // The pieces of the two examples below, each settled on its own so that
  // the literal strings are compared in a small context.

  lemma EscapeCommaIds(ids: Bytes)
    requires ids == "A,B"
    ensures QueryEscape(ids) == "A%2CB"
  {
    QueryEscapeCommaList();
  }

  lemma RenderIdsExample(ids: Bytes)
    requires ids == "A,B"
    ensures EncodePair(Pair(KeyIds, ids)) == "ids=A%2CB"
  {
    KeysUnreserved();
    RenderKey(KeyIds, ids);
    EscapeCommaIds(ids);
  }

  lemma RenderNegativeLimitExample(limit: Int64)
    requires limit == -5
    ensures EncodePair(Pair(KeyLimit, Itoa(limit))) == "limit=-5"
  {
    KeysUnreserved();
    RenderDecimal(KeyLimit, limit);
    assert Itoa(limit) == "-5";
  }

  lemma RenderLimitExample(limit: Int64)
    requires limit == 10
    ensures EncodePair(Pair(KeyLimit, Itoa(limit))) == "limit=10"
  {
    KeysUnreserved();
    RenderDecimal(KeyLimit, limit);
    assert Itoa(limit) == "10";
  }

  lemma RenderOffsetExample(offset: Int64)
    requires offset == 0
    ensures EncodePair(Pair(KeyOffset, Itoa(offset))) == "offset=0"
  {
    KeysUnreserved();
    RenderDecimal(KeyOffset, offset);
    assert Itoa(offset) == "0";
  }

  lemma ConcatStatus(status: ConversationStatus)
    requires status == StatusArchived
    ensures KeyStatus + "=" + status == "status=archived"
  {
  }

  lemma RenderStatusExample(status: ConversationStatus)
    requires status == StatusArchived
    ensures EncodePair(Pair(KeyStatus, status)) == "status=archived"
  {
    KeysUnreserved();
    RenderKey(KeyStatus, status);
    StatusNamesUnreserved();
    QueryEscapeUnreserved(status);
    ConcatStatus(status);
  }

  lemma JoinExample()
    ensures "ids=A%2CB" + "&" + "limit=-5" + "&" + "offset=0" + "&" + "status=archived"
         == "ids=A%2CB&limit=-5&offset=0&status=archived"
  {
    assert "ids=A%2CB" + "&" + "limit=-5" == "ids=A%2CB&limit=-5";
    assert "ids=A%2CB&limit=-5" + "&" + "offset=0" == "ids=A%2CB&limit=-5&offset=0";
  }

  /**
   * A request with a negative limit, a zero offset, a comma-separated
   * identifier list and the archived status: the comma is escaped, the rest
   * is written verbatim, keys in ascending order.
   */
  lemma ListQueryExample(limit: Int64, offset: Int64, ids: Bytes, status: ConversationStatus)
    requires limit == -5 && offset == 0 && ids == "A,B" && status == StatusArchived
    ensures ListQuery(Some(ListRequest(PaginationRequest(limit, offset), ids, Some(status))))
         == "ids=A%2CB&limit=-5&offset=0&status=archived"
  {
    FullListQuery(PaginationRequest(limit, offset), ids, status);
    RenderIdsExample(ids);
    RenderNegativeLimitExample(limit);
    RenderOffsetExample(offset);
    RenderStatusExample(status);
    JoinExample();
  }

  lemma JoinPaginationExample()
    ensures "limit=10" + "&" + "offset=0" == "limit=10&offset=0"
  {
  }

  /** Pagination alone, as a request with no filter sends it: `limit=10&offset=0`. */
  lemma ListQueryPaginationExample(limit: Int64, offset: Int64)
    requires limit == 10 && offset == 0
    ensures ListQuery(Some(ListRequest(PaginationRequest(limit, offset), [], None))) == "limit=10&offset=0"
  {
    BareListQuery(PaginationRequest(limit, offset));
    RenderLimitExample(limit);
    RenderOffsetExample(offset);
    JoinPaginationExample();
  }
}
