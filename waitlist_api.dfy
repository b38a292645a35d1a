/**
 * The two waitlist endpoints of the API (server.js) and the collection
 * they share. `POST /api/waitlist` normalises the body, runs an advisory
 * duplicate lookup (email OR Instagram username), and otherwise inserts;
 * the collection's unique indexes are what really keeps entries unique,
 * and an E11000 raised by them is answered like a lookup hit.
 * `GET /api/waitlist/count` reports the number of stored entries.
 */
module WaitlistApi {
  import opened JsString
  import opened NumberField
  import opened WaitlistSchema

  /** The body fields the handler destructures; `None` is `undefined` or `null`. */
  datatype Request = Request(
    name: Option<string>,
    email: Option<string>,
    phno: Option<string>,
    platform: Option<string>,
    instagramUsername: Option<string>,
    instagramFollowers: Option<string>,
    youtubeChannelName: Option<string>,
    youtubeSubscribers: Option<string>)

  /** The JSON the handlers send; `success` is `true` exactly for `Joined` and `Counted`. */
  datatype Body =
    | Joined(data: Entry)
    | Counted(count: nat)
    | Failed(message: string, error: Option<StoreError>)

  datatype Response = Response(status: nat, body: Body)

  const EmailTakenMessage := "This email address is already on the waitlist."
  const HandleTakenMessage := "This Instagram username is already on the waitlist."
  const EntryExistsMessage := "Entry already exists on the waitlist."
  const DuplicateEntryMessage := "Duplicate entry."
  const JoinFailedMessage := "Failed to join waitlist."
  const CountFailedMessage := "Failed to get waitlist count."

  /** `v || null` on an optional string. */
  function OrNull(v: Option<string>): (r: Option<string>)
    ensures r.None? <==> !Truthy(v)
    ensures r.Some? ==> r == v
  {
    if Truthy(v) then v else None
  }

  /**
   * `v && v !== '' ? v.trim() : null`: an absent or empty handle becomes
   * `null`, any other is trimmed. A handle of white space only is truthy,
   * so it becomes `''`, not `null`.
   */
  function NormalizeHandle(v: Option<string>): (r: Option<string>)
    ensures r.None? <==> v.None? || v.value == ""
    ensures r.Some? ==> r.value == Trim(v.value)
    ensures r.Some? ==> Trimmed(r.value) && |r.value| <= |v.value|
  {
    if Truthy(v) then Some(Trim(v.value)) else None
  }

  /** A handle that is already trimmed is passed on unchanged. */
  lemma NormalizeTrimmedHandle(v: Option<string>)
    requires Truthy(v) && Trimmed(v.value)
    ensures NormalizeHandle(v) == v
  {
    TrimOfTrimmed(v.value);
  }

  /** A handle of white space only is kept as the empty string rather than dropped. */
  lemma BlankHandleKeptAsEmpty(s: string)
    requires s != "" && AllWhitespace(s)
    ensures NormalizeHandle(Some(s)) == Some("")
  {
    TrimAllWhitespace(s);
  }

  /**
   * The document the handler passes to `Waitlist.create`: the required
   * paths and `platform` with falsy values as `null`, the two handles
   * normalised, the two counts parsed.
   */
  function BuildDoc(req: Request): (doc: Doc)
    ensures doc.name == OrNull(req.name) && doc.email == OrNull(req.email)
    ensures doc.phno == OrNull(req.phno) && doc.platform == OrNull(req.platform)
    ensures doc.instagramUsername == NormalizeHandle(req.instagramUsername)
    ensures doc.youtubeChannelName == NormalizeHandle(req.youtubeChannelName)
    ensures doc.instagramFollowers == ParseNumberField(req.instagramFollowers)
    ensures doc.youtubeSubscribers == ParseNumberField(req.youtubeSubscribers)
  {
    Doc(
      OrNull(req.name),
      OrNull(req.email),
      OrNull(req.phno),
      OrNull(req.platform),
      NormalizeHandle(req.instagramUsername),
      ParseNumberField(req.instagramFollowers),
      NormalizeHandle(req.youtubeChannelName),
      ParseNumberField(req.youtubeSubscribers))
  }

  /** `{ $or: [{ email }, { instagram_username }] }`, the second disjunct only when set. */
  datatype Query = Query(email: Option<string>, handle: Option<string>)

  function LookupQuery(req: Request): (q: Query)
    ensures q.email == req.email
    ensures q.handle.Some? ==> q.handle.value != ""
    ensures Truthy(NormalizeHandle(req.instagramUsername)) ==> q.handle == NormalizeHandle(req.instagramUsername)
    ensures !Truthy(NormalizeHandle(req.instagramUsername)) ==> q.handle.None?
  {
    var instaUser := NormalizeHandle(req.instagramUsername);
    Query(req.email, if Truthy(instaUser) then instaUser else None)
  }

  /** The `$or` filter: the entry has the queried email, or the queried non-null handle. */
  predicate Matches(e: Entry, q: Query)
    ensures q.handle.None? ==> (Matches(e, q) <==> q.email == Some(e.email))
    ensures q.email.None? ==> (Matches(e, q) <==> q.handle.Some? && e.instagramUsername == q.handle)
  {
    || (q.email.Some? && e.email == q.email.value)
    || (q.handle.Some? && e.instagramUsername == q.handle)
  }

  /** The position of the first entry, in insertion order, that `q` matches; `|es|` when none does. */
  function FirstMatch(es: seq<Entry>, q: Query): (k: nat)
    ensures k <= |es|
    ensures k < |es| ==> Matches(es[k], q)
    ensures forall j :: 0 <= j < k ==> !Matches(es[j], q)
  {
    if es == [] then 0
    else if Matches(es[0], q) then 0
    else 1 + FirstMatch(es[1..], q)
  }

  /** Some stored entry matches the filter. */
  predicate AnyMatch(es: seq<Entry>, q: Query) {
    exists j :: 0 <= j < |es| && Matches(es[j], q)
  }

  /**
   * One answer `findOne(q)` may give: the first matching entry in
   * insertion order. MongoDB promises only some matching entry; the
   * contracts that use it promise no more than that.
   */
  function FindFirst(es: seq<Entry>, q: Query): (r: Option<Entry>)
    ensures r.Some? ==> r.value in es && Matches(r.value, q)
    ensures r.None? <==> !AnyMatch(es, q)
  {
    var k := FirstMatch(es, q);
    if k < |es| then Some(es[k]) else None
  }

  /**
   * The 409 message for a lookup hit: the email message when the found
   * entry has the submitted email, otherwise the Instagram message when it
   * has the submitted (non-empty) handle, otherwise the generic one.
   */
  function ConflictMessage(existing: Entry, email: Option<string>, instaUser: Option<string>): (m: string)
    ensures m == EmailTakenMessage <==> email == Some(existing.email)
    ensures m == HandleTakenMessage <==>
      email != Some(existing.email) && Truthy(instaUser) && existing.instagramUsername == instaUser
    ensures m in {EmailTakenMessage, HandleTakenMessage, EntryExistsMessage}
  {
    if email == Some(existing.email) then EmailTakenMessage
    else if Truthy(instaUser) && existing.instagramUsername == instaUser then HandleTakenMessage
    else EntryExistsMessage
  }

  /**
   * A lookup hit always names the field that collided: the entry found
   * matches the submitted email or the submitted handle, and the message
   * says which, the email taking precedence.
   */
  lemma LookupHitMessage(existing: Entry, req: Request)
    requires Matches(existing, LookupQuery(req))
    ensures var m := ConflictMessage(existing, req.email, NormalizeHandle(req.instagramUsername));
      && m != EntryExistsMessage
      && (m == EmailTakenMessage <==> req.email == Some(existing.email))
      && (m == HandleTakenMessage ==> existing.instagramUsername == NormalizeHandle(req.instagramUsername))
  {
  }

  /**
   * The lookup is only advisory, and never stricter than the indexes: a
   * request whose document the collection would accept finds no duplicate.
   */
  lemma LookupNeverBlocksAcceptedInsert(es: seq<Entry>, req: Request, now: int)
    requires StoreInvariant(es) && Create(es, BuildDoc(req), now).Ok?
    ensures !AnyMatch(es, LookupQuery(req))
  {
    var doc := BuildDoc(req);
    AcceptedEmailNotStored(es, doc, now);
    if req.instagramUsername.Some? && req.instagramUsername.value != "" {
      AcceptedHandleNotStored(es, doc, now);
    }
    QueryMisses(es, LookupQuery(req));
  }

  /**
   * `findOne` returns `null` exactly when neither the queried email nor the
   * queried (non-null) handle is stored.
   */
  lemma QueryMisses(es: seq<Entry>, q: Query)
    ensures !AnyMatch(es, q) <==>
      && (q.email.Some? ==> !EmailTaken(es, q.email.value))
      && !HandleTaken(es, q.handle)
  {
    if q.email.Some? && EmailTaken(es, q.email.value) {
      var i :| 0 <= i < |es| && es[i].email == q.email.value;
      assert Matches(es[i], q);
    } else if HandleTaken(es, q.handle) {
      var i :| 0 <= i < |es| && es[i].instagramUsername == q.handle;
      assert Matches(es[i], q);
    }
  }

  /** `error.keyPattern ? Object.keys(error.keyPattern)[0] : Object.keys(error.keyValue || {})[0]`. */
  function DuplicateKeyName(keyPattern: Option<seq<string>>, keyValue: Option<seq<string>>): (k: Option<string>)
    ensures keyPattern.Some? && keyPattern.value != [] ==> k == Some(keyPattern.value[0])
    ensures keyPattern.Some? && keyPattern.value == [] ==> k.None?
    ensures keyPattern.None? ==> (k.Some? <==> keyValue.Some? && keyValue.value != [])
    ensures keyPattern.None? && keyValue.Some? && keyValue.value != [] ==> k == Some(keyValue.value[0])
  {
    var keys := if keyPattern.Some? then keyPattern.value
                else if keyValue.Some? then keyValue.value
                else [];
    if keys == [] then None else Some(keys[0])
  }

  /**
   * The catch block: a duplicate-key error (code 11000) is a 409 whose
   * message follows the first violated key, anything else is a 500.
   */
  function ErrorResponse(e: StoreError): (r: Response)
    ensures r.status == 409 <==> ErrorCode(e) == Some(11000)
    ensures r.status != 409 ==> r == Response(500, Failed(JoinFailedMessage, Some(e)))
    ensures r.status == 409 ==>
      var k := DuplicateKeyName(e.keyPattern, e.keyValue);
      r.body == Failed(
        if k == Some(EmailKey) then EmailTakenMessage
        else if k == Some(InstagramKey) then HandleTakenMessage
        else DuplicateEntryMessage, None)
  {
    if ErrorCode(e) == Some(11000) then
      var k := DuplicateKeyName(e.keyPattern, e.keyValue);
      var message :=
        if k == Some(EmailKey) then EmailTakenMessage
        else if k == Some(InstagramKey) then HandleTakenMessage
        else DuplicateEntryMessage;
      Response(409, Failed(message, None))
    else
      Response(500, Failed(JoinFailedMessage, Some(e)))
  }

  /** The response to the outcome of `Waitlist.create`. */
  function InsertResponse(r: Result<Entry>): (resp: Response)
    ensures resp.status == 201 <==> r.Ok?
    ensures r.Ok? ==> resp.body == Joined(r.value)
    ensures r.Err? ==> resp == ErrorResponse(r.error)
  {
    match r
    case Ok(e) => Response(201, Joined(e))
    case Err(x) => ErrorResponse(x)
  }

  /**
   * An insert that the indexes refuse is answered exactly as a lookup hit
   * on the same field would be; one that fails validation is a 500.
   */
  lemma InsertOutcomeResponse(es: seq<Entry>, doc: Doc, now: int)
    ensures var r := Create(es, doc, now);
      var resp := InsertResponse(r);
      && (r.Ok? <==> resp.status == 201)
      && (resp.status == 201 ==> resp.body == Joined(r.value))
      && (r.Err? && r.error.ValidationError? ==> resp.status == 500)
      && (r.Err? && r.error.DuplicateKey? ==>
            && resp.status == 409
            && resp.body.message ==
                 if EmailTaken(es, Cast(doc, now).value.email) then EmailTakenMessage
                 else HandleTakenMessage)
  {
  }

  /**
   * The collection behind the `Waitlist` model: the stored entries in
   * insertion order. Entries are only ever appended, never changed.
   */
  class WaitlistCollection {
    var entries: seq<Entry>

    ghost predicate Valid()
      reads this
    {
      StoreInvariant(entries)
    }

    constructor ()
      ensures Valid() && entries == []
    {
      entries := [];
    }

    /** `Waitlist.countDocuments()`; `up` is false when the database call rejects. */
    method CountDocuments(up: bool) returns (r: Result<nat>)
      ensures up ==> r == Ok(|entries|)
      ensures !up ==> r == Err(Unavailable)
    {
      if up { r := Ok(|entries|); } else { r := Err(Unavailable); }
    }

    /** `Waitlist.findOne(q).lean()`: some matching entry, or `null` when none matches. */
    method FindOne(q: Query, up: bool) returns (r: Result<Option<Entry>>)
      ensures !up ==> r == Err(Unavailable)
      ensures up ==> r.Ok?
      ensures up && r.value.Some? ==> r.value.value in entries && Matches(r.value.value, q)
      ensures up ==> (r.value.None? <==> !AnyMatch(entries, q))
    {
      if up { r := Ok(FindFirst(entries, q)); } else { r := Err(Unavailable); }
    }

    /**
     * `Waitlist.create(doc)`: on success the cast entry is appended and
     * nothing else changes; on any error the collection is unchanged.
     */
    method Create(doc: Doc, now: int, up: bool) returns (r: Result<Entry>)
      requires Valid()
      modifies this
      ensures Valid()
      ensures !up ==> r == Err(Unavailable)
      ensures up ==> r == WaitlistSchema.Create(old(entries), doc, now)
      ensures entries == if r.Ok? then old(entries) + [r.value] else old(entries)
    {
      if !up {
        r := Err(Unavailable);
        return;
      }
      r := WaitlistSchema.Create(entries, doc, now);
      if r.Ok? {
        CreateKeepsInvariant(entries, doc, now);
        entries := entries + [r.value];
      }
    }
  }

  /** `GET /api/waitlist/count`: exactly the number of stored entries, or a 500. */
  method GetCount(store: WaitlistCollection, up: bool) returns (resp: Response)
    ensures up ==> resp == Response(200, Counted(|store.entries|))
    ensures !up ==> resp == Response(500, Failed(CountFailedMessage, None))
  {
    var r := store.CountDocuments(up);
    if r.Ok? {
      resp := Response(200, Counted(r.value));
    } else {
      resp := Response(500, Failed(CountFailedMessage, None));
    }
  }

  /**
   * `resp` is the 409 for a lookup of `req` that found `existing`: a stored
   * entry matching the filter, whichever one the database returns.
   */
  predicate HitResponse(es: seq<Entry>, req: Request, existing: Entry, resp: Response) {
    && existing in es
    && Matches(existing, LookupQuery(req))
    && resp == Response(409, Failed(ConflictMessage(existing, req.email, NormalizeHandle(req.instagramUsername)), None))
  }

  /**
   * The first half of `POST /api/waitlist`: normalise the handle and look
   * for a duplicate. `Some` is the response to send now (a 409 on a hit,
   * a 500 if the lookup fails); `None` means go on and insert.
   */
  method PreCheck(store: WaitlistCollection, req: Request, up: bool) returns (early: Option<Response>)
    ensures !up ==> early == Some(Response(500, Failed(JoinFailedMessage, Some(Unavailable))))
    ensures up ==> (early.None? <==> !AnyMatch(store.entries, LookupQuery(req)))
    ensures up && early.Some? ==> exists existing :: HitResponse(store.entries, req, existing, early.value)
  {
    var query := LookupQuery(req);
    var found := store.FindOne(query, up);
    if found.Err? {
      return Some(ErrorResponse(found.error));
    }
    if found.value.Some? {
      var existing := found.value.value;
      var message := ConflictMessage(existing, req.email, NormalizeHandle(req.instagramUsername));
      early := Some(Response(409, Failed(message, None)));
      assert HitResponse(store.entries, req, existing, early.value);
      return;
    }
    return None;
  }

  /** The second half of `POST /api/waitlist`: build the document, insert it, answer. */
  method Insert(store: WaitlistCollection, req: Request, now: int, up: bool) returns (resp: Response)
    requires store.Valid()
    modifies store
    ensures store.Valid()
    ensures !up ==> resp == Response(500, Failed(JoinFailedMessage, Some(Unavailable)))
    ensures up ==> resp == InsertResponse(WaitlistSchema.Create(old(store.entries), BuildDoc(req), now))
    ensures store.entries ==
      if resp.status == 201 then old(store.entries) + [resp.body.data] else old(store.entries)
  {
    var doc := BuildDoc(req);
    var created := store.Create(doc, now, up);
    resp := InsertResponse(created);
    assert resp.status == 201 ==> resp.body.data == created.value;
  }

  /**
   * `POST /api/waitlist`. A rejected request leaves the collection as it
   * was; an accepted one appends exactly the normalised payload and
   * answers 201 with it.
   */
  method PostWaitlist(store: WaitlistCollection, req: Request, now: int, lookupUp: bool, insertUp: bool)
    returns (resp: Response)
    requires store.Valid()
    modifies store
    ensures store.Valid()
    ensures resp.status in {201, 409, 500}
    ensures resp.status == 201 ==>
      && resp.body.Joined?
      && Cast(BuildDoc(req), now) == Ok(resp.body.data)
      && store.entries == old(store.entries) + [resp.body.data]
    ensures resp.status != 201 ==> store.entries == old(store.entries)
    ensures !lookupUp ==> resp == Response(500, Failed(JoinFailedMessage, Some(Unavailable)))
    ensures lookupUp && AnyMatch(old(store.entries), LookupQuery(req)) ==>
      exists existing :: HitResponse(old(store.entries), req, existing, resp)
    ensures lookupUp && !AnyMatch(old(store.entries), LookupQuery(req)) ==>
      resp == if insertUp then InsertResponse(WaitlistSchema.Create(old(store.entries), BuildDoc(req), now))
              else Response(500, Failed(JoinFailedMessage, Some(Unavailable)))
  {
    var early := PreCheck(store, req, lookupUp);
    if early.Some? {
      return early.value;
    }
    resp := Insert(store, req, now, insertUp);
    InsertOutcomeResponse(old(store.entries), BuildDoc(req), now);
  }

  /**
   * Two submissions racing: both lookups run before either insert, so the
   * lookups cannot see each other. When the collection would accept each
   * document on its own, neither lookup finds anything, the first insert
   * answers 201, and the second is refused by the index it collides on
   * (the email index first) or answers 201 too. Two entries with one email
   * are never both created.
   */
  lemma RacingPosts(es: seq<Entry>, first: Request, second: Request, now1: int, now2: int)
    requires StoreInvariant(es)
    requires Create(es, BuildDoc(first), now1).Ok? && Create(es, BuildDoc(second), now2).Ok?
    ensures !AnyMatch(es, LookupQuery(first)) && !AnyMatch(es, LookupQuery(second))
    ensures var e1, e2 := Create(es, BuildDoc(first), now1).value, Create(es, BuildDoc(second), now2).value;
      var resp2 := InsertResponse(Create(es + [e1], BuildDoc(second), now2));
      && InsertResponse(Create(es, BuildDoc(first), now1)) == Response(201, Joined(e1))
      && (e1.email == e2.email ==> resp2 == Response(409, Failed(EmailTakenMessage, None)))
      && (e1.email != e2.email && e2.instagramUsername.Some? && e1.instagramUsername == e2.instagramUsername ==>
            resp2 == Response(409, Failed(HandleTakenMessage, None)))
      && (e1.email != e2.email && (e2.instagramUsername.None? || e1.instagramUsername != e2.instagramUsername) ==>
            resp2 == Response(201, Joined(e2)))
  {
    LookupNeverBlocksAcceptedInsert(es, first, now1);
    LookupNeverBlocksAcceptedInsert(es, second, now2);
    SecondOfTwoAccepted(es, BuildDoc(first), BuildDoc(second), now1, now2);
  }

  /**
   * Handles of white space only are stored as `''`, which the sparse index
   * counts as a value: of two such sign-ups with different emails, racing
   * or not, the second is refused as a taken Instagram username.
   */
  lemma BlankHandlesCollide(es: seq<Entry>, first: Request, second: Request, now1: int, now2: int)
    requires StoreInvariant(es)
    requires Create(es, BuildDoc(first), now1).Ok? && Create(es, BuildDoc(second), now2).Ok?
    requires first.instagramUsername.Some? && first.instagramUsername.value != ""
    requires AllWhitespace(first.instagramUsername.value)
    requires second.instagramUsername.Some? && second.instagramUsername.value != ""
    requires AllWhitespace(second.instagramUsername.value)
    requires Create(es, BuildDoc(first), now1).value.email != Create(es, BuildDoc(second), now2).value.email
    ensures InsertResponse(Create(es + [Create(es, BuildDoc(first), now1).value], BuildDoc(second), now2))
         == Response(409, Failed(HandleTakenMessage, None))
  {
    BlankHandleKeptAsEmpty(first.instagramUsername.value);
    BlankHandleKeptAsEmpty(second.instagramUsername.value);
    TrimOfTrimmed("");
    RacingPosts(es, first, second, now1, now2);
  }
}
