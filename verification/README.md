# commune-server federation core, in Dafny

This project models the federation boundary of commune-server, a small ActivityPub
server written in Rust. The model covers:

- **HTTP Signatures** (`src/hancock.rs`). This is the `Signature` header of
  draft-cavage-http-signatures (the parameters of its section 2.1 and the signing string of
  its section 2.3). The model covers the pseudo-header names, the parameter parser, the
  header renderer, `create`, `create_legacy` and `verify`.
- **WebFinger** (`src/apub/webfinger.rs`). This covers account parsing (`acct:` URIs as in
  RFC 7565), the choice of query domain, the scan of a descriptor's links (RFC 7033
  section 4.4) with its success check, and the local JSON Resource Descriptor.
- **Actors.**
  - Stored actors and the layout of local actors' URIs (`src/db/models/actor.rs`).
  - The wire actor and its conversions in both directions, including the
    `owner == id` / `id#main-key` public-key check (`src/apub/models/actor.rs`,
    `src/apub/models.rs`).
  - The ActivityPub actor serializer (`src/apub/serializers/...`).
  - The get-or-fetch resolution of remote actors (`src/apub/actions/actors.rs`).
- **The store** (`src/db/actions/...`). Actors and follow edges are sequences held by a
  `Database` class. Following inserts an edge under the `(follower_id, following_id)` key,
  and unfollowing deletes the matching edges. The followers query pages its results 12 at a
  time, newest first, leaving out pending edges. The follower count counts the same edges.
- **The HTTP boundary.**
  - The signature gate of the inbox (`src/handlers/apub/auth.rs`).
  - The inbox dispatch of `Create`, `Follow`, `Undo(Follow)` and everything else
    (`src/handlers/apub/inbox.rs`).
  - The mapping from action errors to HTTP statuses (`src/errors.rs`).
  - The local-domain gate and the ActivityPub content type (`src/handlers/apub.rs`).

Code that loops or changes state is modelled imperatively:

- The parameter loop of `parse` is `Hancock.Parse`.
- The byte buffers of `create` and `verify` are `Hancock.Create` and `Hancock.Verify`.
- The `params` string of `to_header` is `Hancock.ToHeader`.
- The link scan is `Webfinger.ScanLinksLoop`.
- Every store write is a method of `Db.Database`.

Each such method is proved equal to a pure function. The laws are stated about those
functions: round trips, iff conditions, error paths and "nothing else changes".

Foreign crates are fields of the `Foreign.Libs` record, passed as a parameter:

- base64;
- `url` host extraction;
- IDNA;
- PEM parsing;
- RSA-SHA256 verification.

The base64 round trip is the hypothesis `Base64Lawful`, which the lemmas that need it
require. A signing callback and a verifying callback that belong together form the
hypothesis `KeyPair`. The clock is a `now` parameter. The network is the `Remote` record of
fetch functions, or a `fetch` function. The database pool and `spawn_blocking` are the two
flags of `ActorActions.Runtime`.

Files:

- `wrappers.dfy`, `text.dfy` and `json.dfy`: Option/Result, string helpers, JSON values.
- `foreign.dfy`: the `Libs` record.
- `username.dfy`, `errors.dfy`, `db_models.dfy`, `db.dfy` and `db_laws.dfy`: the store.
- `hancock.dfy` and `hancock_laws.dfy`: HTTP Signatures.
- `webfinger.dfy`, `serializers.dfy`, `apub_models.dfy` and `actor_actions.dfy`: the
  ActivityPub side.
- `auth.dfy`, `inbox.dfy` and `apub_handlers.dfy`: the handlers.

## Model

| member | source | states |
|---|---|---|
| Hancock.ParseHeaderName | src/hancock.rs:107-126 | a header name parses iff it is non-empty and made of token characters, and the result is its ASCII lower-case form |
| Hancock.FromStr | src/hancock.rs:113-126 | the three pseudo-header spellings give `RequestTarget`, `Created` and `Expires`; any other accepted name becomes a lower-cased `NormalHeader` |
| Hancock.FromStrAsStr | src/hancock.rs:97-126 | `from_str` undoes `as_str` for every signature header name, pseudo or normal |
| Hancock.AsStr | src/hancock.rs:97-104 | a header name renders as itself; every rendered name is non-empty |
| Hancock.PseudoNamesParenthesised | src/hancock.rs:97-104 | exactly the pseudo-headers render with a leading `(`, and they end with `)` |
| Hancock.AsStrChars | src/hancock.rs:97-104 | every rendered name is non-empty and holds no space or comma, so a space-joined name list splits back apart |
| Hancock.ParseMaybeQuoted | src/hancock.rs:129-137 | one pair of surrounding quotes is removed when the value is quoted (length at least 2); otherwise the value is returned unchanged |
| Hancock.ParseMaybeQuotedAsWritten | src/hancock.rs:129-137 | the code as written panics exactly on the value `"`; otherwise it strips one surrounding pair of quotes, or returns the value unchanged |
| Hancock.ParseMaybeQuotedQuoted | src/hancock.rs:129-137 | quoting any text and then unquoting it gives the text back |
| Hancock.LoneQuotePanics | src/hancock.rs:132-133 | on the one-character value `"` the code as written slices `1..0` and panics; the corrected reading keeps `"` |
| Hancock.ParseMaybeQuotedAgrees | src/hancock.rs:129-137 | on every other input the code as written and the corrected reading give the same value |
| Hancock.ParseNames | src/hancock.rs:312-319 | a name list parses iff every element does, and the result is the element-wise `from_str` |
| Hancock.KeyOf | src/hancock.rs:302-327 | parameter keys are matched exactly and case-sensitively: `signature` and `keyId` are recognised only as written |
| Hancock.StoreParam | src/hancock.rs:302-327 | an unknown key leaves the fields unchanged; a `signature` field exists afterwards iff one existed before or the key is `signature` |
| Hancock.ParseParam | src/hancock.rs:297-327 | a parameter fails with `MissingEquals` iff it has no `=`; a parameter with an unknown key changes nothing |
| Hancock.Parse | src/hancock.rs:284-338 | the loop over the comma-separated parameters computes `ParseResult`: text that is not visible ASCII is `InvalidCharacters`, the first failing parameter wins, and a missing signature is `MissingSignature` |
| Hancock.ReadParam | src/hancock.rs:297-327 | one pass of the parse loop, which splits at the first `=` and stores the unquoted value, equals `ParseParam` |
| Hancock.Names | src/hancock.rs:345-356 | the rendered name list is the element-wise `as_str` of the signature's names |
| Hancock.WriteNames | src/hancock.rs:345-356 | appending the names joined by single spaces to the parameter text |
| Hancock.WriteHeaders | src/hancock.rs:345-357 | the `headers` parameter holds the quoted name list, or `(created)` when the signature has none |
| Hancock.WriteOptional | src/hancock.rs:358-369 | an optional parameter is appended as `,key=value` when present and omitted when absent |
| Hancock.ToHeader | src/hancock.rs:341-376 | the header text is the parameters in the order headers, algorithm, created, expires, keyId, signature, joined by commas; every character is a valid header-value character |
| Hancock.HeaderTextJoin | src/hancock.rs:341-376 | the rendered header is exactly the comma join of its parameter list |
| Hancock.HeaderTextChars | src/hancock.rs:375 | the rendered text is a valid header value, so the conversion at the end of `to_header` never fails |
| Hancock.Lines | src/hancock.rs:403-446 | the signing lines exist iff every named pseudo-header has its value, and then they are the per-name lines in order |
| Hancock.NormalNames | src/hancock.rs:205-212 | the request's header names become `NormalHeader` entries in map order |
| Hancock.HeaderLines | src/hancock.rs:190-203 | each header line is `name: ` followed by all of that header's values joined by `, `, in map order |
| Hancock.CreateSigningString | src/hancock.rs:177-212 | the string `verify` rebuilds from a `create` signature's own fields (request-target, created, expires, then every header in map order) is exactly the body `create` signs |
| Hancock.CreateLegacySigningString | src/hancock.rs:243-269 | the same for `create_legacy`, whose list starts with `(request-target)` alone, then the request's headers |
| Hancock.WriteValues | src/hancock.rs:193-202 | a header's values are appended joined by `, ` in order |
| Hancock.WriteHeaderLines | src/hancock.rs:190-203 | appending one line per request header gives the newline-join of the earlier lines and the header lines |
| Hancock.Create | src/hancock.rs:163-224 | the body built by the loops is the signing string of the unsigned signature, with `expires = created + lifetime`; the result is that signature signed over that body, or the callback's error |
| Hancock.CreateLegacy | src/hancock.rs:230-281 | as `create`, without `(created)` and `(expires)`; it needs a `Date` header |
| Hancock.WriteLine | src/hancock.rs:403-446 | one pass of the verify loop fails iff a named pseudo-header has no value, and otherwise appends that name's line |
| Hancock.Verify | src/hancock.rs:382-456 | the result equals `VerifyResult`: `false` when expired, `false` when a named pseudo-value is missing, and otherwise the callback on the rebuilt signing string |
| HancockLaws.ParseParamsConcat | src/hancock.rs:297-333 | parsing a concatenation of parameter lists is parsing the first list and continuing with the second |
| HancockLaws.ParseParamOf | src/hancock.rs:297-327 | a `key=value` parameter whose key has no `=` stores the unquoted value under that key |
| HancockLaws.ParseParamsOkHasEquals | src/hancock.rs:297-300 | a parameter list that parses has an `=` in every parameter |
| HancockLaws.NoSignatureKey | src/hancock.rs:302-327 | a parsed parameter list with no `signature` key yields no signature |
| HancockLaws.SignatureKeyIndex | src/hancock.rs:302-327 | a parsed parameter list that yields a signature holds a `signature` key at some index |
| HancockLaws.ParseAccepts | src/hancock.rs:284-338 | a successful parse has visible ASCII, an `=` in every parameter and a `signature` key; an otherwise acceptable header without one fails with `MissingSignature` |
| HancockLaws.MissingEqualsFails | src/hancock.rs:299-300 | a parameter without `=` makes the whole parse `MissingEquals` when the parameters before it are accepted |
| HancockLaws.UntrimmedKeyIgnored | src/hancock.rs:299-327 | keys are not trimmed: ` keyId=…` is an unknown key and changes nothing |
| HancockLaws.RepeatedKeyIdLastWins | src/hancock.rs:302-327 | a repeated key overwrites the earlier value |
| HancockLaws.NamesRoundTrip | src/hancock.rs:312-319 | a space-joined list of rendered names parses back to the same names |
| HancockLaws.ParseToHeader | src/hancock.rs:284-376 | parsing what `to_header` renders gives back the signature, with an absent name list read as `[(created)]`, when the base64 codec round-trips, the keyId needs no escaping and the name list is not empty |
| HancockLaws.EmptyNamesRefused | src/hancock.rs:312-319 | an empty name list renders as `headers=""`, which does not parse |
| HancockLaws.ExpiredIsFalse | src/hancock.rs:396-400 | `verify` returns `false` whenever `expires < now`, whatever the callback would say |
| HancockLaws.MissingPseudoIsFalse | src/hancock.rs:417-430 | `verify` returns `false` when the list names `(created)` or `(expires)` without its value, or when there is no list and no `created` |
| HancockLaws.CreateThenVerify | src/hancock.rs:163-224 | a signature made by `create` verifies with a matching key pair at any time up to and including its expiry |
| HancockLaws.CreateLegacyThenVerify | src/hancock.rs:230-281 | a signature made by `create_legacy` verifies with a matching key pair at any time |
| HancockLaws.CreateRenderParseVerify | src/hancock.rs:163-456 | a `create` signature, rendered and parsed again, is the same signature and verifies up to its expiry |
| Username.UsernameToIdna | src/apub/username.rs:3-8 | the IDNA encoding of the username, or the username itself when encoding fails |
| Errors.StatusCode | src/errors.rs:25-30 | 404 iff `NotFound`, 422 iff `InvalidForm`, and 500 for every other error |
| Errors.IntoResponse | src/errors.rs:6-32 | the status is the mapped one, always 404, 422 or 500; the body is a JSON object whose only field `error` names the variant |
| Errors.ResponseBodyDistinguishes | src/errors.rs:6 | two errors with the same response body are the same error |
| DbModels.ActorTypeOf | src/db/models/actor.rs:87-96 | `Service`, `Application` and `Group` are read exactly, and every other kind string is `Person` |
| DbModels.ActorTypeRoundTrip | src/db/models/actor.rs:87-107 | type to string to type is the identity for all four types |
| DbModels.Build | src/db/models/actor.rs:109-167 | a built local actor has uri `https://<domain>/communities/<idna>` or `…/users/<idna>`, with inbox, outbox and followers as uri suffixes; following is absent for groups; url is `https://<domain>/@<username>`; `created_at == updated_at == now`; language empty; flags false |
| DbModels.BuilderUriInjective | src/db/models/actor.rs:138-144 | two builders that produce the same uri share the domain, the group-ness and the IDNA username |
| Db.LookupError | src/db/actions/actor.rs:20-23 | a missing row is `NotFound`, and any other store failure is `InternalError` |
| Db.FirstWhere | src/db/actions/actor.rs:14-19 | the first stored actor matching the filter, or `RowNotFound` when none does |
| Db.GetActorByUri | src/db/actions/actor.rs:26-35 | the result is a stored actor with that uri; the result is `NotFound` iff no stored actor has that uri |
| Db.GetActorByUsernameDomain | src/db/actions/actor.rs:10-24 | the result matches both username and domain; the result is `NotFound` iff no stored actor matches both |
| Db.RoleFor | src/db/actions/follow.rs:62-66 | the role is `pending` iff the target is locked and `follower` otherwise |
| Db.InsertEdge | src/db/actions/follow.rs:69-72 | an edge whose `(follower_id, following_id)` key is taken is refused with `InsertError` and the table is unchanged; otherwise it is appended |
| Db.Without | src/db/actions/follow.rs:83-92 | after the delete no edge has the key, every edge with another key is kept, and nothing is added |
| Db.MatchingActors | src/db/actions/follow.rs:18-24 | each joined row pairs an edge with a stored actor whose id is the edge's follower |
| Db.InsertRow | src/db/actions/follow.rs:25 | inserting a row into the ordered list adds exactly that row |
| Db.InsertRowNewestFirst | src/db/actions/follow.rs:25 | insertion keeps the list ordered newest `created_at` first |
| Db.SortNewestFirst | src/db/actions/follow.rs:25 | the sorted rows are a permutation of the input, newest `created_at` first |
| Db.ActorGetFollowers | src/db/actions/follow.rs:11-31 | a page below 1 is `NotFound` (a negative offset); otherwise the result holds at most 12 actors |
| Db.PageOf | src/db/actions/follow.rs:26-27 | page `p` holds at most 12 rows, row `i` of the page being row `12*(p-1)+i` of the ordered list |
| Db.ActorsOf | src/db/actions/follow.rs:29 | the page's actors, in row order |
| Db.ActorCountFollowers | src/db/actions/follow.rs:33-47 | the count is a non-negative number |
| Db.Database.constructor | src/db/schema.rs:27 | an empty store satisfies the table invariant: distinct ids and uris, and edges with existing ends and distinct keys |
| Db.Database.InsertNewActor | src/apub/actions/actors.rs:39-41 | the store's actor insert gives `InsertActorResult`: a stored uri is refused with `InsertError`, and otherwise the actor is appended with a fresh id; the invariant is kept and the edges are unchanged |
| Db.Database.InsertFollow | src/db/actions/follow.rs:69-72 | the table insert gives `InsertEdge` on the edges and keeps the invariant |
| Db.Database.FollowActorByUri | src/db/actions/follow.rs:49-73 | the result and the new edges are `FollowResult` of the old tables (both lookups, role, insert); the actors are unchanged and the invariant is kept; the identical copy at src/db/actions/actor.rs:37-61 is the same operation |
| Db.Database.UnfollowActorByUri | src/db/actions/follow.rs:75-93 | the result and the new edges are `UnfollowResult` of the old tables (both lookups, then an unconditional delete); the invariant is kept |
| Db.DeleteEdges | src/db/actions/follow.rs:83-92 | the loop keeps exactly `Without` the key |
| Db.WithoutKeepsValid | src/db/schema.rs:27 | deleting edges keeps the keys distinct and every edge's ends stored |
| DbLaws.FollowAppendsEdge | src/db/actions/follow.rs:49-73 | a successful follow appends one edge with the two actors' ids, the role rule and the time `now` |
| DbLaws.UnknownActorChangesNothing | src/db/actions/follow.rs:54-55 | when either uri is not stored, follow and unfollow fail with `NotFound` and leave the edges unchanged |
| DbLaws.FollowTwiceRefused | src/db/actions/follow.rs:69-72 | following the same pair again fails with `InsertError` and changes nothing |
| DbLaws.WithoutAbsent | src/db/actions/follow.rs:83-92 | deleting a key that is absent changes nothing, and unfollow still reports success |
| DbLaws.FollowThenUnfollow | src/db/actions/follow.rs:49-93 | unfollowing right after a successful follow succeeds and restores the original edges |
| DbLaws.UnfollowRemovesExactly | src/db/actions/follow.rs:75-93 | a successful unfollow leaves exactly `Without` the pair's key |
| DbLaws.MatchingUnique | src/db/actions/follow.rs:18-24 | with distinct ids, an edge joins with exactly its follower |
| DbLaws.MatchingNone | src/db/actions/follow.rs:18-24 | an edge whose follower is not stored joins with nothing |
| DbLaws.CountIsCountedEdges | src/db/actions/follow.rs:33-47 | when every edge's follower is stored exactly once, the count is the number of non-pending edges into the actor |
| DbLaws.RowsSound | src/db/actions/follow.rs:18-24 | every joined row is a stored actor with a non-pending edge into the actor |
| DbLaws.PageHoldsFollowers | src/db/actions/follow.rs:11-31 | every actor on a page is a stored actor following the target with a non-pending edge |
| DbLaws.RowOnItsPage | src/db/actions/follow.rs:23-27 | paging misses no follower: the row of rank `k` in the newest-first order is entry `k mod 12` of page `k / 12 + 1` |
| DbLaws.NoCountedNoRows | src/db/actions/follow.rs:18-24 | with no non-pending edge into the actor, there are no rows |
| DbLaws.SingleRowPage | src/db/actions/follow.rs:11-47 | with a single row, page 1 is that row's actor and the count is 1 |
| DbLaws.FirstFollowerOnPageOne | tests/db/actions/follow.rs:15-30 | after following an unlocked actor with no other followers, page 1 holds exactly the follower and the count is 1 |
| DbLaws.InsertedActorRetrievable | tests/db/actions/actor.rs:53-55 | an inserted actor is found by its uri and equals the returned record; an insert that is refused changes nothing |
| Webfinger.ParseAcct | src/apub/webfinger.rs:85-100 | succeeds iff byte 5 is a character boundary and the rest holds exactly one `@`; the rest is then `user@domain`; the prefix is never checked |
| Webfinger.ParseAcctOfHandle | src/apub/webfinger.rs:85-100 | any five ASCII characters followed by `user@domain` parse as `(user, domain)` |
| Webfinger.ParseAcctNeedsOneAt | src/apub/webfinger.rs:90-98 | a remainder with no `@` or with several is refused |
| Webfinger.ParseAcctNotAnEmail | src/apub/webfinger.rs:85-100 | `acct:notanemail` does not parse |
| Webfinger.ParseAcctAlice | src/apub/webfinger.rs:85-100 | `acct:alice@example.com` parses as `(alice, example.com)` |
| Webfinger.ParseAcctShort | src/apub/webfinger.rs:86 | inputs shorter than five bytes do not parse |
| Webfinger.GetDomain | src/apub/webfinger.rs:74-83 | an `acct:` resource gives its account's domain; anything else gives the URL host, or `None` |
| Webfinger.GetDomainOfAcct | src/apub/webfinger.rs:74-83 | `acct:user@domain` queries `domain` |
| Webfinger.LastWhere | src/apub/webfinger.rs:54-62 | the index of the last link matching a predicate, or `None` when none does |
| Webfinger.ScanKeepsLastMatch | src/apub/webfinger.rs:54-62 | the scan's uri is the href of the last activity+json link and its url the href of the last profile-page link that is not one; a missing href is the empty string |
| Webfinger.ScanLinksLoop | src/apub/webfinger.rs:54-62 | the loop overwriting `uri` and `url` computes the scan |
| Webfinger.QueryWebfingerResult | src/apub/webfinger.rs:42-72 | succeeds iff a domain is found, the descriptor is fetched, its subject parses as an account, and uri and url are both non-empty; every failure is `FetchError` |
| Webfinger.QueryWebfinger | src/apub/webfinger.rs:42-72 | the query computes `QueryWebfingerResult` |
| Webfinger.LookupResource | src/apub/webfinger.rs:103-110 | an account-shaped resource is looked up by IDNA-decoded username and domain, and anything else by uri |
| Webfinger.GetWebfinger | src/apub/webfinger.rs:102-127 | lookup errors are passed on; success is the descriptor of the stored actor that was found |
| Webfinger.Jrd | src/apub/webfinger.rs:112-127 | the descriptor's subject is `acct:<idna username>@<domain>`; the aliases are the uri and the url (or `null`); the links are the profile page (type `text/html`, the url) and `self` (type `application/activity+json`, the uri) |
| Webfinger.ScanOfLocalDescriptor | src/apub/webfinger.rs:117-126 | scanning the local descriptor's links finds the actor's uri and url |
| Webfinger.SubjectParses | src/apub/webfinger.rs:113 | the descriptor's subject `acct:<idna>@<domain>` parses back to that account |
| Webfinger.WebfingerOwnSubject | src/apub/webfinger.rs:102-127 | asking for an actor's own subject returns that actor's descriptor |
| Webfinger.UrlWithAtReadAsAccount | src/apub/webfinger.rs:103-110 | a URL with one `@` is looked up as an account: `https://x@host` asks for the user `://x` at `host` |
| Serializers.Context | src/apub/serializers.rs:12-17 | `@context` is activitystreams, then litepub |
| Serializers.Image | src/apub/serializers/image.rs:18-23 | the icon object is exactly `{type: "Image", url}` |
| Serializers.MainKeyId | src/apub/serializers/actor.rs:32-36 | the key id is the uri followed by `#main-key` |
| Serializers.SharedInbox | src/apub/serializers/actor.rs:44-46 | the shared inbox is the domain between `https://` and `/inbox` |
| Serializers.PublicKeyObject | src/apub/serializers/actor.rs:32-36 | the key object names the main key of the uri, is owned by the uri and carries the PEM |
| Serializers.SerializeActor | src/apub/serializers/actor.rs:22-42 | the serializer writes the uri as id, the type, the raw username, the name and summary as stored (empty included), and the url or `null` |
| ApubModels.EmptyStringOrNone | src/apub/models.rs:7-13 | the empty string gives `None` and any other gives `Some` of itself; never `Some("")`; unwrapping with `""` gives the input back |
| ApubModels.GetPublicKeyPem | src/apub/models/actor.rs:42-48 | a key is returned iff its owner is the id, its id is `id#main-key` and its PEM is a string |
| ApubModels.ForeignKeyRefused | src/apub/models/actor.rs:42-48 | a key whose id is not the actor's main key is refused |
| ApubModels.FromDbActorKeyChecks | src/apub/models/actor.rs:92-99 | the public key of a converted stored actor passes the key check and gives back the stored PEM; the shared inbox is `https://<domain>/inbox` |
| ApubModels.FromDbActor | src/apub/models/actor.rs:76-110 | the wire actor keeps the uri, type, inbox, outbox and flags; the url falls back to the uri; empty name and summary are absent; the username is its IDNA form |
| ApubModels.RenderingsAgreeContext | src/apub/serializers/actor.rs:24 | the serializer and the wire conversion write the same `@context` |
| ApubModels.RenderingsAgreeId | src/apub/serializers/actor.rs:25 | the serializer and the wire conversion write the same id |
| ApubModels.RenderingsAgreeType | src/apub/serializers/actor.rs:26 | the serializer and the wire conversion write the same type |
| ApubModels.RenderingsAgreeKey | src/apub/serializers/actor.rs:32-36 | the serializer and the wire conversion write the same public key object |
| ApubModels.RenderingsAgreeEndpoints | src/apub/serializers/actor.rs:37-39 | the serializer and the wire conversion write the same endpoints object |
| ApubModels.RenderingsAgreeLock | src/apub/serializers/actor.rs:31 | the serializer and the wire conversion write the same `manuallyApprovesFollowers` flag |
| ApubModels.RenderingsAgreeIcon | src/apub/serializers/actor.rs:40 | the serializer and the wire conversion write the same icon |
| ApubModels.NewActorFromAp | src/apub/models/actor.rs:112-152 | `InvalidForm` unless the id has a host and the key check passes; the domain is the host, the language `und`, the lock and suspension flags default to false, and the actor is never silenced |
| ApubModels.NewActorFromApWebfinger | src/apub/models/actor.rs:154-163 | the plain conversion with the domain replaced by the WebFinger account's domain, failing exactly when it fails |
| ApubModels.StoreWireStore | src/apub/models/actor.rs:76-152 | a stored actor converted to the wire and back keeps its uri, kind, username, domain, texts, endpoints, key and flags |
| ApubModels.DecodeActivity | src/apub/models/activities.rs:5-19 | an activity decodes iff `type`, `id`, `actor` and `published` are strings and `object`, `to` and `cc` are present; the fields are read from them, and a missing or `null` `@context` is none |
| ApubModels.DecodeEncodeActivity | src/apub/models/activities.rs:5-19 | decoding an encoded activity gives it back |
| ActorActions.FetchActor | src/apub/actions/actors.rs:14-23 | the fetched document, or `FetchError` on any network or decode failure |
| ActorActions.Convert | src/apub/actions/actors.rs:31-36 | the WebFinger-domain conversion when WebFinger succeeds and the plain one otherwise; it fails iff the plain conversion fails, always with `InvalidForm` |
| ActorActions.FetchActorByUriResult | src/apub/actions/actors.rs:26-45 | a pool with no connection is `InternalError`; a failure leaves the store unchanged |
| ActorActions.Choose | src/apub/actions/actors.rs:60-64 | a hit is returned, only `NotFound` fetches, and any other error is passed on unchanged |
| ActorActions.GetOrFetchResult | src/apub/actions/actors.rs:48-65 | a pool or blocking-task failure is `InternalError`; a failure leaves the store unchanged |
| ActorActions.LocalHitNeedsNoFetch | src/apub/actions/actors.rs:60-61 | a stored uri is returned from the store, whatever the network would answer |
| ActorActions.MissFetches | src/apub/actions/actors.rs:62 | a missing uri is resolved by `fetch_actor_by_uri` |
| ActorActions.FetchFailures | src/apub/actions/actors.rs:26-45 | with the pool available, a failed fetch is `FetchError` and a failed conversion is `InvalidForm`; after a conversion, a failed blocking task is `InternalError` and a uri already stored is `InsertError`; each leaves the store unchanged |
| ActorActions.FetchedActorStored | src/apub/actions/actors.rs:39-44 | a successful fetch returns the record it inserted, built from the fetched document |
| ActorActions.SecondAskIsLocal | src/apub/actions/actors.rs:26-65 | once an actor is fetched under its own id, asking again is a local hit that does not touch the network |
| ActorActions.FetchActorByUri | src/apub/actions/actors.rs:26-45 | the store method computes `FetchActorByUriResult` and keeps the invariant |
| ActorActions.GetOrFetchActorByUri | src/apub/actions/actors.rs:48-65 | the store method computes `GetOrFetchResult` and keeps the invariant |
| Auth.ActorUriOfKeyId | src/handlers/apub/auth.rs:51-56 | a keyId gives an actor uri iff it ends in `#main-key`, and the uri is its prefix before the first `#main-key` |
| Auth.ActorUriOfMainKeyId | src/handlers/apub/auth.rs:51-56 | the key id of a uri without `#` gives that uri back |
| Auth.CheckSignature | src/handlers/apub/auth.rs:60-81 | accepted iff the stored PEM parses and `verify` returns `Ok(true)`; a verify error counts as false; the accepted actor is the resolved one |
| Auth.Authenticate | src/handlers/apub/auth.rs:38-82 | every failure of the check chain is a plain rejection |
| Auth.EarlyRejections | src/handlers/apub/auth.rs:45-56 | a missing header, a parse failure, a missing keyId or a keyId without `#main-key` reject with no lookup and no fetch |
| Auth.AcceptedIffVerified | src/handlers/apub/auth.rs:38-82 | the gate returns an actor iff the `Signature` header is present and parses, its keyId names a main key, the key's actor resolves (locally or by fetching), and the signature checks against that actor's key |
| Auth.LinesIgnoreAddedHeader | src/handlers/apub/auth.rs:45 | adding the `Signature` header to a request does not change the signing lines of names other than it |
| Auth.SignedRequestAccepted | src/handlers/apub/auth.rs:38-82 | a request signed by `create` with an actor's main key, then sent with the rendered header, is accepted as that actor up to the expiry |
| Auth.MustAuthenticate | src/handlers/apub/auth.rs:28-36 | succeeds iff the actor's uri is the activity's actor |
| Auth.AuthenticateHttpSignatures | src/handlers/apub/auth.rs:38-82 | the store method computes `Authenticate` (which may fetch and store the actor) and keeps the invariant |
| Inbox.GetUri | src/handlers/apub/inbox.rs:11-22 | a string is itself, an object gives its string `id`, and anything else is `None` |
| Inbox.GetUriForms | src/handlers/apub/inbox.rs:11-22 | a uri and an object carrying it as `id` name the same thing |
| Inbox.InboxFollow | src/handlers/apub/inbox.rs:52-71 | a failure is a rejection and leaves the edges unchanged |
| Inbox.InboxUndoFollow | src/handlers/apub/inbox.rs:86-103 | a failure leaves the edges unchanged |
| Inbox.InboxUndo | src/handlers/apub/inbox.rs:73-84 | a failure leaves the edges unchanged |
| Inbox.PostInboxResult | src/handlers/apub/inbox.rs:24-42 | a failure leaves the edges unchanged |
| Inbox.UndecodableRefused | src/handlers/apub/inbox.rs:30-31 | a body that is not an activity is `InvalidForm` and changes nothing |
| Inbox.ImpostorRefused | src/handlers/apub/inbox.rs:32-41 | an activity whose actor is not the signer is `NotAuthenticated` and changes nothing |
| Inbox.OtherKindsRefused | src/handlers/apub/inbox.rs:33-50 | `Create` and every kind other than `Follow` and `Undo` are rejected with no change |
| Inbox.FollowDispatch | src/handlers/apub/inbox.rs:52-71 | a `Follow` whose object is not a string is rejected with no change; otherwise the activity's actor follows the object, and a failed follow is a rejection with no change |
| Inbox.UndoDispatch | src/handlers/apub/inbox.rs:73-103 | an `Undo` whose object is not an activity is `InvalidForm`, one undoing anything but a `Follow` is rejected, and one undoing a `Follow` unfollows the inner object for the outer actor, passing unfollow errors on |
| Inbox.FollowThenUndo | src/handlers/apub/inbox.rs:24-103 | an accepted `Follow` followed by the `Undo` of that same activity restores the edges |
| Inbox.PostInbox | src/handlers/apub/inbox.rs:24-42 | the store method computes `PostInboxResult`, leaves the actors alone and keeps the invariant |
| ApubHandlers.SetDomain | src/handlers/apub.rs:8-22 | accepted iff there is a Host authority whose host is a local domain; the domain is that host, without the port; everything else is rejected |
| ApubHandlers.SetDomainIgnoresPort | src/handlers/apub.rs:13-15 | the port of the authority never matters |
| ApubHandlers.MapContentTypeAp | src/handlers/apub.rs:24-26 | the reply gets `content-type: application/activity+json`, and its body and other headers are unchanged |
| ApubHandlers.MapContentTypeApIdempotent | src/handlers/apub.rs:24-26 | setting the content type twice is setting it once |

## Left out

- Cryptography (`do_verify`'s OpenSSL verifier, RSA key generation) is represented by the `publicKeyFromPem` and `rsaSha256Verify` fields of `Foreign.Libs` and by the signing and verifying callbacks. The base64, `url`, IDNA and `http` header-name crates are likewise `Libs` fields or, for header names, a token-character check with ASCII lower-casing.
- The base64 round trip and the sign/verify pairing are hypotheses (`Base64Lawful`, `KeyPair`) that the lemmas needing them require; no lemma assumes them globally.
- Username.IdnaToUsername: has no contract, because it is a thin wrapper around the foreign IDNA decoder.
- The system clock is a `now` parameter. Time values are natural numbers, and `u64` is the subset below 2^64.
- Hancock.Create: requires `created + lifetime` to stay below 2^64, where Rust's addition would panic in debug builds or wrap around in release builds.
- Hancock.CreateLegacy: requires a `Date` header, where the source panics without one.
- Header values are strings of characters, not bytes. The maximum length of a header name is not modelled. The HTTP method is lower-cased in ASCII only.
- Network I/O (`reqwest`) is the `Remote` record of partial fetch functions. The client construction in `src/apub/actions.rs` is not part of this model.
- Concurrency is not modelled: the r2d2 pool, `spawn_blocking` and racing first fetches of one actor. A pool or task failure is a flag of `ActorActions.Runtime` that yields `InternalError`. A failed blocking task is taken to insert nothing.
- The database is an in-memory `Database` class, so a query never fails for reasons other than a missing row. `Db.LookupError` still states the mapping of other failures to `InternalError`. The delete in `unfollow_actor_by_uri` cannot fail, so its `NotFound` mapping is unreachable here.
- Db.Database.InsertNewActor: `insert_new_actor` is not part of this model's source. It is modelled as an append with a fresh id that is refused with `InsertError` when the uri is already stored. Absent name, summary and avatar are stored as the empty string, and `created_at` as `now`.
- Db.SortNewestFirst: the order among rows with equal `created_at` is the stable insertion order, which SQL does not promise.
- ApubModels.DecodeActivity: only the object form is decoded; serde's positional form, a JSON array of the eight fields in declaration order, is not modelled.
- Hancock.ToHeader: requires every character of the keyId and of the encoded signature to be a valid header-value character. The source panics at `HeaderValue::from_bytes(..).unwrap()` (src/hancock.rs:374) for a keyId holding a control character such as a newline; that panic is not modelled. The base64 crate writes only its alphabet, but the model states this as the requirement on the encoded signature rather than as a property of `Libs`.
- Db.ActorGetFollowers: the offset `PAGE_SIZE * (page - 1)` (src/db/actions/follow.rs:27) is computed on unbounded integers. In the source it is an `i64` product, which panics in debug builds or wraps around in release builds for pages above `i64::MAX / 12 + 1`; the model returns `Ok` for every page from 1 up.
- The web framework is not part of this model: routing in `src/main.rs`, `src/handlers/webfinger.rs`, `src/handlers/apub/actors.rs`, configuration loading in `src/state.rs`, the CLI and `src/db/actions/user.rs`. The same goes for `src/apub/inbox_handlers.rs`, which is superseded by `src/handlers/apub/inbox.rs`, and for `src/handlers/apub/actors.bak.rs`, which is outside the module tree.
- `inbox.rs` returns `ActionError::NotAuthenticated`, a variant that `src/errors.rs` does not declare. It is modelled as a separate `NotAuthenticated` case of `Errors.Rejection`, beside the plain rejection and the custom action error.
- ActorActions.FetchActorByUriResult: the id of a fetched document is not compared with the requested uri, as in the source, so a document may be stored under another id. `SecondAskIsLocal` requires the two to agree.
- Auth.Authenticate: the signing string is rebuilt from the request path without its query, as `authenticate_http_signatures` passes `path.as_str()`.

## Findings

| source | as written | input that shows it | evidently intended | confidence | as-written member | corrected member |
|---|---|---|---|---|---|---|
| src/hancock.rs:132-133 | `parse_maybe_quoted` slices `&src[1..src.len() - 1]` whenever the value both starts and ends with `"` | the one-character parameter value `"`, for example the header `keyId=",signature="…"`, which asks for the range `1..0` and panics | strip a surrounding pair of quotes only when the value has at least two characters, and otherwise return it unchanged | not executed | Hancock.ParseMaybeQuotedAsWritten (shown by Hancock.LoneQuotePanics) | Hancock.ParseMaybeQuoted (Hancock.ParseMaybeQuotedQuoted, Hancock.ParseMaybeQuotedAgrees) |
