/**
 * The `Waitlist` collection's schema (models/Waitlist.js): how a document
 * handed to `Waitlist.create` is cast (trimmed, email lower-cased, absent
 * optional fields defaulting to `null`, `createdAt` stamped), which paths
 * are required, and the two unique indexes, on `email` and, sparsely, on
 * `instagram_username`. Insertion is given here as a function of the stored
 * entries; the collection object that is updated lives in WaitlistApi.
 */
module WaitlistSchema {
  import opened JsString

  /** The schema paths marked `required`, in declaration order. */
  datatype RequiredPath = NamePath | EmailPath | PhnoPath

  /** A document as handed to `Waitlist.create`: every path may be `null`. */
  datatype Doc = Doc(
    name: Option<string>,
    email: Option<string>,
    phno: Option<string>,
    platform: Option<string>,
    instagramUsername: Option<string>,
    instagramFollowers: Option<int>,
    youtubeChannelName: Option<string>,
    youtubeSubscribers: Option<int>)

  /** A stored waitlist entry: the three required paths are plain strings. */
  datatype Entry = Entry(
    name: string,
    email: string,
    phno: string,
    platform: Option<string>,
    instagramUsername: Option<string>,
    instagramFollowers: Option<int>,
    youtubeChannelName: Option<string>,
    youtubeSubscribers: Option<int>,
    createdAt: int)

  /** What the store rejects a call with. */
  datatype StoreError =
    | ValidationError(missing: seq<RequiredPath>)
      /** E11000: `keyPattern` and `keyValue` name the paths of the violated index. */
    | DuplicateKey(keyPattern: Option<seq<string>>, keyValue: Option<seq<string>>)
      /** Any failure of the database itself (connection lost, timeout, …). */
    | Unavailable

  /**
   * The driver's numeric `error.code`: 11000 for a duplicate key and absent
   * for every other failure, so a handler testing `code === 11000` singles
   * out exactly the unique-index violations.
   */
  function ErrorCode(e: StoreError): (r: Option<int>)
    ensures r == Some(11000) <==> e.DuplicateKey?
    ensures r.Some? ==> r.value == 11000
  {
    if e.DuplicateKey? then Some(11000) else None
  }

  datatype Result<T> = Ok(value: T) | Err(error: StoreError)

  const EmailKey := "email"
  const InstagramKey := "instagram_username"

  predicate OptTrimmed(v: Option<string>) {
    v.None? || Trimmed(v.value)
  }

  /** A string that fails a `required` rule: absent, or empty once trimmed. */
  predicate Blank(v: Option<string>) {
    v.None? || AllWhitespace(v.value)
  }

  /** Every string path trimmed, the email lower-cased, and the required paths non-empty. */
  predicate WellFormed(e: Entry) {
    && Trimmed(e.name) && e.name != ""
    && Trimmed(e.email) && IsLowerCase(e.email) && e.email != ""
    && Trimmed(e.phno) && e.phno != ""
    && OptTrimmed(e.platform)
    && OptTrimmed(e.instagramUsername)
    && OptTrimmed(e.youtubeChannelName)
  }

  /** The `trim: true` setter; `null` stays `null`. */
  function CastString(v: Option<string>): (r: Option<string>)
    ensures OptTrimmed(r) && (r.None? <==> v.None?)
    ensures r.Some? ==> r.value == Trim(v.value)
  {
    if v.None? then None else Some(Trim(v.value))
  }

  /** The `trim: true, lowercase: true` setters of the `email` path. */
  function CastEmail(v: Option<string>): (r: Option<string>)
    ensures OptTrimmed(r) && (r.None? <==> v.None?)
    ensures r.Some? ==> IsLowerCase(r.value) && r.value == ToLower(Trim(v.value))
  {
    if v.None? then None
    else
      LowerKeepsTrimmed(Trim(v.value));
      Some(ToLower(Trim(v.value)))
  }

  /** After the trim setter, a path fails `required` exactly when it was blank. */
  lemma CastBlank(v: Option<string>)
    ensures (CastString(v).None? || CastString(v).value == "") <==> Blank(v)
    ensures (CastEmail(v).None? || CastEmail(v).value == "") <==> Blank(v)
  {
    if v.Some? {
      TrimAllWhitespace(v.value);
    }
  }

  /** The required paths whose cast value is `null` or `''`, in schema order. */
  function MissingPaths(name: Option<string>, email: Option<string>, phno: Option<string>): (m: seq<RequiredPath>)
    ensures (m == []) <==> Truthy(name) && Truthy(email) && Truthy(phno)
    ensures NamePath in m <==> !Truthy(name)
    ensures EmailPath in m <==> !Truthy(email)
    ensures PhnoPath in m <==> !Truthy(phno)
  {
    (if Truthy(name) then [] else [NamePath])
    + (if Truthy(email) then [] else [EmailPath])
    + (if Truthy(phno) then [] else [PhnoPath])
  }

  /**
   * Casting and validating a document, as `new Waitlist(doc)` followed by
   * `validate()`: it is accepted exactly when none of `name`, `email`,
   * `phno` is blank, and a failure lists the blank ones; the entry it
   * yields is well formed, stamped with `now`, holds every string trimmed
   * (the email also lower-cased), and every absent optional path is `null`.
   */
  function Cast(doc: Doc, now: int): (r: Result<Entry>)
    ensures r.Ok? <==> !Blank(doc.name) && !Blank(doc.email) && !Blank(doc.phno)
    ensures r.Err? ==>
      && r.error == ValidationError(MissingPaths(CastString(doc.name), CastEmail(doc.email), CastString(doc.phno)))
      && r.error.missing != []
    ensures r.Ok? ==> && WellFormed(r.value) && r.value.createdAt == now
                      && r.value.name == Trim(doc.name.value)
                      && r.value.email == ToLower(Trim(doc.email.value))
                      && r.value.phno == Trim(doc.phno.value)
                      && r.value.platform == CastString(doc.platform)
                      && r.value.instagramUsername == CastString(doc.instagramUsername)
                      && r.value.youtubeChannelName == CastString(doc.youtubeChannelName)
                      && r.value.instagramFollowers == doc.instagramFollowers
                      && r.value.youtubeSubscribers == doc.youtubeSubscribers
  {
    var name, email, phno := CastString(doc.name), CastEmail(doc.email), CastString(doc.phno);
    CastBlank(doc.name);
    CastBlank(doc.email);
    CastBlank(doc.phno);
    var missing := MissingPaths(name, email, phno);
    if missing != [] then Err(ValidationError(missing))
    else
      Ok(Entry(
        name.value, email.value, phno.value,
        CastString(doc.platform),
        CastString(doc.instagramUsername),
        doc.instagramFollowers,
        CastString(doc.youtubeChannelName),
        doc.youtubeSubscribers,
        now))
  }

  /** Some stored entry has this email. */
  predicate EmailTaken(es: seq<Entry>, email: string) {
    exists i :: 0 <= i < |es| && es[i].email == email
  }

  /** Some stored entry has this non-null Instagram username; `null` is never taken. */
  predicate HandleTaken(es: seq<Entry>, handle: Option<string>) {
    handle.Some? && exists i :: 0 <= i < |es| && es[i].instagramUsername == handle
  }

  /** The unique index on `email`. */
  ghost predicate EmailsUnique(es: seq<Entry>) {
    forall i, j :: 0 <= i < j < |es| ==> es[i].email != es[j].email
  }

  /** The sparse unique index on `instagram_username`: any number of `null`s, no repeated value. */
  ghost predicate HandlesUnique(es: seq<Entry>) {
    forall i, j :: 0 <= i < j < |es| && es[i].instagramUsername.Some? ==>
      es[i].instagramUsername != es[j].instagramUsername
  }

  /** Every stored entry went through the schema's setters and validation. */
  predicate AllWellFormed(es: seq<Entry>) {
    forall i :: 0 <= i < |es| ==> WellFormed(es[i])
  }

  /** What holds of the collection between any two operations. */
  ghost predicate StoreInvariant(es: seq<Entry>) {
    && AllWellFormed(es)
    && EmailsUnique(es)
    && HandlesUnique(es)
  }

  /**
   * The index an insert of `e` would violate, checked `email` first: the
   * key name MongoDB reports in `keyPattern`.
   */
  function ViolatedIndex(es: seq<Entry>, e: Entry): (k: Option<string>)
    ensures k == Some(EmailKey) <==> EmailTaken(es, e.email)
    ensures k == Some(InstagramKey) <==> !EmailTaken(es, e.email) && HandleTaken(es, e.instagramUsername)
    ensures k.None? <==> !EmailTaken(es, e.email) && !HandleTaken(es, e.instagramUsername)
  {
    if EmailTaken(es, e.email) then Some(EmailKey)
    else if HandleTaken(es, e.instagramUsername) then Some(InstagramKey)
    else None
  }

  /**
   * `Waitlist.create(doc)` against the stored entries `es`: validation
   * first, then the unique indexes. On success the entry to append is
   * returned; a violated index gives E11000 naming that index's key.
   */
  function Create(es: seq<Entry>, doc: Doc, now: int): (r: Result<Entry>)
    ensures r.Ok? ==> Cast(doc, now) == r && ViolatedIndex(es, r.value).None?
    ensures r.Err? && r.error.DuplicateKey? ==>
      && Cast(doc, now).Ok?
      && var k := ViolatedIndex(es, Cast(doc, now).value);
         k.Some? && r.error == DuplicateKey(Some([k.value]), Some([k.value]))
    ensures r.Err? ==> r.error.ValidationError? || r.error.DuplicateKey?
    ensures Cast(doc, now).Err? ==> r == Cast(doc, now)
    ensures Cast(doc, now).Ok? && ViolatedIndex(es, Cast(doc, now).value).Some? ==>
      var k := ViolatedIndex(es, Cast(doc, now).value).value;
      r == Err(DuplicateKey(Some([k]), Some([k])))
    ensures Cast(doc, now).Ok? && ViolatedIndex(es, Cast(doc, now).value).None? ==> r == Cast(doc, now)
  {
    match Cast(doc, now)
    case Err(e) => Err(e)
    case Ok(e) =>
      match ViolatedIndex(es, e)
      case Some(k) => Err(DuplicateKey(Some([k]), Some([k])))
      case None => Ok(e)
  }

  /**
   * The unique indexes hold after every insert: a created entry is well
   * formed and shares neither its email nor its non-null Instagram
   * username with an entry already stored.
   */
  lemma CreateKeepsInvariant(es: seq<Entry>, doc: Doc, now: int)
    requires StoreInvariant(es) && Create(es, doc, now).Ok?
    ensures StoreInvariant(es + [Create(es, doc, now).value])
  {
    var e := Create(es, doc, now).value;
    assert EmailsUnique(es + [e]) by {
      AppendKeepsEmailsUnique(es, e);
    }
    assert HandlesUnique(es + [e]) by {
      AppendKeepsHandlesUnique(es, e);
    }
    AppendKeepsWellFormed(es, e);
  }

  lemma AppendKeepsWellFormed(es: seq<Entry>, e: Entry)
    requires forall i :: 0 <= i < |es| ==> WellFormed(es[i])
    requires WellFormed(e)
    ensures forall i :: 0 <= i < |es + [e]| ==> WellFormed((es + [e])[i])
  {
    forall i | 0 <= i < |es + [e]| ensures WellFormed((es + [e])[i]) {
      if i < |es| {
        assert (es + [e])[i] == es[i];
      }
    }
  }

  lemma AppendKeepsEmailsUnique(es: seq<Entry>, e: Entry)
    requires EmailsUnique(es) && !EmailTaken(es, e.email)
    ensures EmailsUnique(es + [e])
  {
    var es' := es + [e];
    forall i, j | 0 <= i < j < |es'| ensures es'[i].email != es'[j].email {
      if j == |es| {
        assert es'[i] == es[i];
      } else {
        assert es'[i] == es[i] && es'[j] == es[j];
      }
    }
  }

  lemma AppendKeepsHandlesUnique(es: seq<Entry>, e: Entry)
    requires HandlesUnique(es) && !HandleTaken(es, e.instagramUsername)
    ensures HandlesUnique(es + [e])
  {
    var es' := es + [e];
    forall i, j | 0 <= i < j < |es'| && es'[i].instagramUsername.Some?
      ensures es'[i].instagramUsername != es'[j].instagramUsername
    {
      if j == |es| {
        assert es'[i] == es[i];
      } else {
        assert es'[i] == es[i] && es'[j] == es[j];
      }
    }
  }

  /**
   * `Create` succeeds exactly when no required path is blank, the cast
   * email is new, and the cast Instagram username is `null` or new.
   */
  lemma CreateSucceedsIff(es: seq<Entry>, doc: Doc, now: int)
    ensures Create(es, doc, now).Ok? <==>
      && !Blank(doc.name) && !Blank(doc.email) && !Blank(doc.phno)
      && !EmailTaken(es, ToLower(Trim(doc.email.value)))
      && !HandleTaken(es, CastString(doc.instagramUsername))
  {
  }

  /**
   * Any number of entries may have no Instagram username: inserting a
   * document without one can only fail on validation or on its email.
   */
  lemma NullHandlesNeverCollide(es: seq<Entry>, doc: Doc, now: int)
    requires doc.instagramUsername.None?
    ensures Create(es, doc, now).Err? && Create(es, doc, now).error.DuplicateKey? ==>
      Create(es, doc, now).error.keyPattern == Some([EmailKey])
  {
  }

  /**
   * Two inserts racing on one email: whatever the second document holds,
   * once the first is stored the second fails on the `email` index.
   */
  lemma SecondInsertOfEmailFails(es: seq<Entry>, first: Doc, second: Doc, now1: int, now2: int)
    requires Create(es, first, now1).Ok? && Cast(second, now2).Ok?
    requires Cast(second, now2).value.email == Create(es, first, now1).value.email
    ensures Create(es + [Create(es, first, now1).value], second, now2)
         == Err(DuplicateKey(Some([EmailKey]), Some([EmailKey])))
  {
    var es' := es + [Create(es, first, now1).value];
    assert es'[|es|].email == Cast(second, now2).value.email;
    assert EmailTaken(es', Cast(second, now2).value.email);
  }

  /**
   * Two documents that the collection would each accept on its own,
   * inserted one after the other: the second is refused on the email index
   * if the emails agree, else on the Instagram index if both carry the same
   * username, and is created otherwise.
   */
  lemma SecondOfTwoAccepted(es: seq<Entry>, d1: Doc, d2: Doc, now1: int, now2: int)
    requires Create(es, d1, now1).Ok? && Create(es, d2, now2).Ok?
    ensures var e1, e2 := Create(es, d1, now1).value, Create(es, d2, now2).value;
      Create(es + [e1], d2, now2) ==
        if e1.email == e2.email then Err(DuplicateKey(Some([EmailKey]), Some([EmailKey])))
        else if e2.instagramUsername.Some? && e1.instagramUsername == e2.instagramUsername
        then Err(DuplicateKey(Some([InstagramKey]), Some([InstagramKey])))
        else Ok(e2)
  {
    var e1, e2 := Create(es, d1, now1).value, Create(es, d2, now2).value;
    assert Cast(d2, now2) == Ok(e2);
    ViolatedAfterAppend(es, e1, e2);
  }

  /**
   * The indexes after appending `e1`, for an entry `e2` that violated
   * neither before: only `e1` itself can now be in the way.
   */
  lemma ViolatedAfterAppend(es: seq<Entry>, e1: Entry, e2: Entry)
    requires ViolatedIndex(es, e2).None?
    ensures ViolatedIndex(es + [e1], e2) ==
      if e1.email == e2.email then Some(EmailKey)
      else if e2.instagramUsername.Some? && e1.instagramUsername == e2.instagramUsername then Some(InstagramKey)
      else None
  {
    var es' := es + [e1];
    assert es'[|es|] == e1;
    assert EmailTaken(es', e2.email) <==> e1.email == e2.email by {
      assert forall i :: 0 <= i < |es| ==> es'[i] == es[i];
    }
    assert HandleTaken(es', e2.instagramUsername) <==>
      e2.instagramUsername.Some? && e1.instagramUsername == e2.instagramUsername by {
      assert forall i :: 0 <= i < |es| ==> es'[i] == es[i];
    }
  }

  /**
   * Stored emails are trimmed and lower case, so a document the collection
   * accepts does not have its submitted email, as written, stored either.
   */
  lemma AcceptedEmailNotStored(es: seq<Entry>, doc: Doc, now: int)
    requires AllWellFormed(es) && Create(es, doc, now).Ok?
    ensures !EmailTaken(es, doc.email.value)
  {
    var e := Create(es, doc, now).value;
    forall j | 0 <= j < |es| ensures es[j].email != doc.email.value {
      assert WellFormed(es[j]);
      LowerOfLowerCase(es[j].email);
      TrimOfTrimmed(es[j].email);
      assert es[j].email != e.email;
    }
  }

  /** A document the collection accepts with an already trimmed username does not have it stored. */
  lemma AcceptedHandleNotStored(es: seq<Entry>, doc: Doc, now: int)
    requires Create(es, doc, now).Ok?
    requires doc.instagramUsername.Some? && Trimmed(doc.instagramUsername.value)
    ensures !HandleTaken(es, doc.instagramUsername)
  {
    TrimOfTrimmed(doc.instagramUsername.value);
  }
}
