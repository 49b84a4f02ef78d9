# Conversations API client, modelled in Dafny

This project models the `conversation` package of the MessageBird Go REST
client (`conversation/conversation.go`). It covers three things:

- **Entities.** The conversation, its channels and message count, the two
  list holders, and the start, reply, update and list requests. They are
  Dafny datatypes. The two named statuses are constants: `StatusActive` is
  "active" and `StatusArchived` is "archived".
- **Query strings of the list requests.** `ListRequest.GetParams` and
  `ListByContactRequest.GetParams` fill a `url.Values` with `Set` calls and
  encode it. Both are imperative methods here. They drive a `Values` class
  whose `map` field `Set` updates in place, and whose `Encode` sorts the keys
  and writes `key=value` pairs joined by '&'. Both are proved against
  `EncodeQuery`, a function over the map. Escaping follows Go's
  `url.QueryEscape`:
  - the unreserved characters of section 2.3 of RFC 3986 pass through;
  - a space becomes '+';
  - every other byte becomes '%' and two upper-case hexadecimal digits.

  A reader of the query (`url.ParseQuery`, then `strconv.Atoi`) is the
  partner of the writer. The round trip from request to query and back to
  the request is proved for every request, nil included.
- **Route builders.** `List`, `ListByContact`, `Read`, `Start`, `Reply` and
  `Update` each hand one HTTP method, one target and one body to the
  collaborator that performs requests. That collaborator is a function
  parameter here. Its error comes back unchanged, and the holder comes back
  only when there is no error. `ParseRoute` maps a method, target and body
  back to the operation that issued them, and it is the partner of the
  builders.

The modules follow the program's layers:

| module | file | role |
|---|---|---|
| `Wrappers` | `wrappers.dfy` | `Option` and `Result` |
| `Strings` | `strings.dfy` | bytes, Go's string order, sorted keys |
| `Strconv` | `strconv.dfy` | `strconv.Itoa` and `strconv.Atoi` |
| `UrlEscape` | `url_escape.dfy` | `url.QueryEscape` and `url.QueryUnescape` |
| `UrlValues` | `url_values.dfy` | `url.Values` (`Set`, `Encode`) and `url.ParseQuery` |
| `Conversation` | `conversation.dfy` | entities, `GetParams`, the route builders and `ParseRoute` |

## Model

| member | source | states |
|---|---|---|
| Conversation.GetListParams | conversation/conversation.go:115-133 | A nil request gives the empty string. Otherwise it gives the encoding of a fresh `url.Values` holding `limit` and `offset` as `Itoa` of the pagination, `ids` when non-empty and `status` when present. |
| Conversation.GetListByContactParams | conversation/conversation.go:141-159 | The same with the identifier filter under `id`. |
| UrlValues.Values.constructor | conversation/conversation.go:120 | `url.Values{}` starts with no keys. |
| UrlValues.Values.Set | conversation/conversation.go:122-130 | After `Set(key, value)`, `key` holds exactly `[value]`. Every other key is unchanged. |
| UrlValues.Values.SortKeys | conversation/conversation.go:132 | Gives the keys of the map in ascending byte order, each once, whatever order they were gathered in. |
| UrlValues.Values.Encode | conversation/conversation.go:132 | Gives `EncodeQuery` of the map: keys in ascending order, each value as escaped `key=value`, one '&' between pairs and none at either end. |
| UrlValues.WritePairs | conversation/conversation.go:132 | The inner loop of `Encode` extends the rendering of the pairs written so far by the pairs of one key. |
| Strings.SortedKeys | conversation/conversation.go:132 | The keys come out strictly ascending, with as many entries as the set and exactly its members. |
| Strings.SortedUnique | conversation/conversation.go:132 | Two strictly ascending sequences with the same members are equal, so the order `Encode` writes is determined by the key set alone. |
| Strconv.Itoa | conversation/conversation.go:122-123 | `limit` and `offset` are written as non-empty text of digits and '-', starting with '-' exactly when negative. |
| Strconv.ItoaDecimal | conversation/conversation.go:122-123 | After the sign comes a non-empty run of decimal digits, without leading zeros, whose value is the magnitude of the number. |
| Strconv.AtoiItoa | conversation/conversation.go:122-123 | `Atoi` reads back every 64-bit `int` that `Itoa` wrote. |
| UrlEscape.UnescapeEscape | conversation/conversation.go:126-129 | `QueryUnescape(QueryEscape(s))` gives `s` for every byte string, so `ids`, `id` and `status` travel unchanged. |
| UrlEscape.QueryEscape | conversation/conversation.go:132 | `Encode` escapes every key and value so that the result holds only unreserved characters, '%' and '+'. That leaves no '&', '=' or ';' that a reader could take for a separator. The escaped form is at least as long as the input and at most three times as long. |
| UrlEscape.QueryEscapeUnreserved | conversation/conversation.go:132 | A string of unreserved characters is written as is. |
| Conversation.ItoaEscapesToItself | conversation/conversation.go:122-123 | The decimal text of `limit` and `offset` consists of unreserved characters only, so it appears in the query verbatim. |
| Conversation.StatusNamesEscapeToThemselves | conversation/conversation.go:16-21 | The two named statuses "active" and "archived" differ, and each appears in the query verbatim, as `status=active` or `status=archived`. |
| UrlEscape.QueryEscapeCommaList | conversation/message_test.go:49-50 | The comma of a comma-separated identifier list is escaped: "A,B" becomes "A%2CB". |
| UrlValues.ParseQueryEncode | conversation/conversation.go:120-132 | Parsing the encoding of any map with no empty value list gives that map back. |
| Conversation.FullListQuery | conversation/conversation.go:115-133 | With a non-empty identifier list and a status, the query is the four rendered pairs `ids`, `limit`, `offset`, `status` joined by '&'. |
| Conversation.BareListQuery | conversation/conversation.go:115-133 | With neither filter, the query is the rendered `limit` and `offset` pairs joined by '&'. |
| Conversation.ListQueryExample | conversation/conversation.go:115-133 | The request with limit -5, offset 0, identifiers "A,B" and status "archived" gives exactly `ids=A%2CB&limit=-5&offset=0&status=archived`. |
| Conversation.ListQueryPaginationExample | conversation/conversation.go:115-133 | The request with limit 10, offset 0 and no filter gives exactly `limit=10&offset=0`. |
| Conversation.FilterKeysSorted | conversation/conversation.go:120-132 | The keys of a list query come in this order: the identifier filter when non-empty, then `limit`, `offset`, and `status` when present. |
| Conversation.FilterQueryPairs | conversation/conversation.go:115-133 | The query of a non-nil request is exactly the rendering of these pairs: the identifier filter first when non-empty, then `limit` and `offset` always (even when zero), then `status` when present, one pair each. |
| Conversation.FilterValuesShape | conversation/conversation.go:120-130 | `limit` and `offset` are present with one decimal value each. The identifier key is present if and only if the identifier is non-empty. `status` is present if and only if the pointer is non-nil. No other key is present, and every key holds one value. |
| Conversation.FilterQueryDecodes | conversation/conversation.go:120-132 | Parsing a list request's query gives back exactly the map it was built from. |
| Conversation.FilterOfValues | conversation/conversation.go:122-130 | Reading `limit`, `offset`, the identifier and `status` back from that map gives the request's fields. |
| Conversation.ListQueryEmpty | conversation/conversation.go:115-133 | A list request's query is empty if and only if the request is nil. |
| Conversation.ListByContactQueryEmpty | conversation/conversation.go:141-159 | The same for the by-contact request. |
| Conversation.ListQueryRoundTrip | conversation/conversation.go:115-133 | Decoding `ListRequest.GetParams` gives back the request, nil included. |
| Conversation.ListByContactQueryRoundTrip | conversation/conversation.go:141-159 | Decoding `ListByContactRequest.GetParams` gives back the request, nil included. |
| Conversation.Complete | conversation/conversation.go:164-168 | The collaborator's error is returned unchanged with no holder. Without an error, the filled holder is returned. |
| Conversation.List | conversation/conversation.go:162-169 | One GET of `path?query` with no body, where the query is that of `options`. Errors pass through. |
| Conversation.ListByContact | conversation/conversation.go:172-181 | One GET of `path/contactPath/contactId?pagination` with no body. Errors pass through. |
| Conversation.Read | conversation/conversation.go:184-191 | One GET of `path/id` with no body. Errors pass through. |
| Conversation.Start | conversation/conversation.go:195-202 | One POST of `path/startConversationPath` carrying the start request. Errors pass through. |
| Conversation.Reply | conversation/conversation.go:205-214 | One POST of `path/conversationId/messagesPath` carrying the reply request. Errors pass through. |
| Conversation.Update | conversation/conversation.go:218-225 | One PATCH of `path/id` carrying the update request. Errors pass through. |
| Conversation.ListRouteParses | conversation/conversation.go:164 | The request `List` issues is routed back to a list with exactly that query. |
| Conversation.ListRouteBare | conversation/conversation.go:164 | The target of `List` is `path?` with nothing after the '?' if and only if `options` is nil. |
| Conversation.ListByContactRouteParses | conversation/conversation.go:173 | The request `ListByContact` issues is routed back to the same contact and pagination query, provided the contact identifier holds no '?'. |
| Conversation.ReadRouteParses | conversation/conversation.go:186 | The request `Read` issues is routed back to a read of the same identifier, provided the identifier holds no '/' or '?'. |
| Conversation.StartRouteParses | conversation/conversation.go:197 | The request `Start` issues is routed back to a start with the same body. |
| Conversation.ReplyRouteParses | conversation/conversation.go:206-209 | The request `Reply` issues is routed back to a reply to the same conversation with the same body, provided the conversation identifier holds no '/' and the start segment holds neither '/' nor '?'. |
| Conversation.UpdateRouteParses | conversation/conversation.go:220 | The request `Update` issues is routed back to an update of the same identifier with the same body, provided the identifier holds no '/' or '?'. |
| Conversation.ReadCollidesWithListByContact | conversation/conversation.go:173-186 | Identifiers go into paths unescaped. `Read` of the identifier `contactPath/contactId?query` issues exactly the request that `ListByContact` issues. |

## Left out

- The JSON encoding of every entity, and their `time.Time` fields (`CreatedDatetime`, `UpdatedDatetime`, `LastReceivedDatetime`).
- `Conversation.Contact`, `StartRequest.Content`, `ReplyRequest.Content` and `ReplyRequest.Fallback` are not part of this model, because their types (`Contact`, `MessageContent`, `Fallback`) are defined in other files of the package.
- `StartRequest.Source` and `ReplyRequest.Source` are not part of this model, because each is an untyped JSON map (`map[string]interface{}`) that only the JSON encoding reads.
- Request bodies reach the request collaborator unchanged, so no operation here depends on the fields dropped above. The entities keep all their other fields.
- `To` (`MessageRecipient`), `Type` (`MessageType`) and `Tag` (`MessageTag`) of the start and reply requests have types defined in other files. They are taken to be string types and are modelled as `Bytes`.
- The collaborator that performs HTTP requests is a function parameter. What it sends over the network and how it decodes the response are not modelled.
- `PaginationRequest.GetParams` comes from another file. `ListByContact` takes it as a function parameter.
- The path constants `path`, `contactPath`, `startConversationPath` and `messagesPath` are set in another file. They are parameters (`Paths`) here.
- Strconv.Itoa: renders any integer. The entities bound `limit` and `offset` to the range of a 64-bit `int`, and Go's 64-bit wrap-around is not modelled.
- UrlValues.ParseQuery: returns no map at all on a malformed pair, where Go goes on and returns a partial map along with the first error. The round trip only ever parses well-formed queries.
- UrlValues.ParseQueryEncode: requires every key to hold at least one value. `Encode` writes nothing for an empty value list, so such a key cannot be read back. `Set` never creates one.
- The server-side rule that a contact has at most one active conversation (conversation.go:15) is enforced by the remote service and is not a property of this client.
- The `message_test.go` suite is not modelled. Only the escaping of a comma-separated identifier list that it checks is stated, as `UrlEscape.QueryEscapeCommaList`, and whole queries are stated for two concrete requests, as `Conversation.ListQueryExample` and `Conversation.ListQueryPaginationExample`.
- Strings are byte strings (`Bytes`, characters below 256). Go strings are byte sequences, and no Unicode handling is involved.
