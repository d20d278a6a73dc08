// server/models/Settings.js and server/routes/settingsRoutes.js: the store's
// settings document (name, contact email, currency, timezone) with its
// defaults and schema rules, the seeding that creates it when missing, and
// the read and update handlers. The settings collection is a sequence of
// documents; `findOne()` reads its first.

module Settings {
  import opened Common

  datatype SettingsDoc = SettingsDoc(name: string, email: string, currency: string, timezone: string)

  const DefaultName: string := "Eva Curves Fashion Store"
  const DefaultEmail: string := "contact@evacurves.com"
  const DefaultCurrency: string := "USD"
  const DefaultTimezone: string := "UTC-5"
  const NotFound: string := "Settings not found"

  /** `create({})`: every field at its default. */
  const Default: SettingsDoc := SettingsDoc(DefaultName, DefaultEmail, DefaultCurrency, DefaultTimezone)

  predicate KnownCurrency(c: string)
  {
    c == "USD" || c == "ILS" || c == "EUR"
  }

  /** The schema's validators: all four fields required (an empty string
      fails `required`), the currency one of the enum. */
  predicate Conforms(doc: SettingsDoc)
  {
    doc.name != "" && doc.email != "" && KnownCurrency(doc.currency) && doc.timezone != ""
  }

  lemma DefaultIsValid()
    ensures Conforms(Default) && Default.currency == "USD"
  {
  }

  /** The string fields a request body may carry. */
  datatype SettingsPatch = SettingsPatch(name: Option<string>, email: Option<string>,
                                         currency: Option<string>, timezone: Option<string>)

  function Pick(field: Option<string>, current: string): string
  {
    if field.Some? then field.value else current
  }

  /** `Object.assign(settings, req.body)`: every field the body names is
      copied onto the document, the rest stay. */
  function Assign(doc: SettingsDoc, patch: SettingsPatch): (r: SettingsDoc)
    ensures patch.name.Some? ==> r.name == patch.name.value
    ensures patch.email.Some? ==> r.email == patch.email.value
    ensures patch.currency.Some? ==> r.currency == patch.currency.value
    ensures patch.timezone.Some? ==> r.timezone == patch.timezone.value
    ensures patch.name.None? ==> r.name == doc.name
    ensures patch.email.None? ==> r.email == doc.email
    ensures patch.currency.None? ==> r.currency == doc.currency
    ensures patch.timezone.None? ==> r.timezone == doc.timezone
  {
    SettingsDoc(Pick(patch.name, doc.name), Pick(patch.email, doc.email),
                Pick(patch.currency, doc.currency), Pick(patch.timezone, doc.timezone))
  }

  /** Assigning the same body twice is assigning it once; an empty body
      changes nothing; a body naming every field replaces the document. */
  lemma AssignLaws(doc: SettingsDoc, patch: SettingsPatch)
    ensures Assign(Assign(doc, patch), patch) == Assign(doc, patch)
    ensures Assign(doc, SettingsPatch(None, None, None, None)) == doc
    ensures patch.name.Some? && patch.email.Some? && patch.currency.Some? && patch.timezone.Some? ==>
              Assign(doc, patch) == SettingsDoc(patch.name.value, patch.email.value, patch.currency.value, patch.timezone.value)
  {
  }

  /** `createDefaultSettings`: one default document when there is none,
      otherwise nothing. */
  function Seed(docs: seq<SettingsDoc>): seq<SettingsDoc>
  {
    if docs == [] then [Default] else docs
  }

  /** Seeding leaves a collection that has a document alone, gives an
      empty one the valid default, and running it again changes nothing. */
  lemma SeedSpec(docs: seq<SettingsDoc>)
    ensures docs != [] ==> Seed(docs) == docs
    ensures docs == [] ==> Seed(docs) == [Default] && Conforms(Seed(docs)[0])
    ensures Seed(Seed(docs)) == Seed(docs)
  {
  }

  datatype Response = Error(status: Status, message: string) | Invalid | Body(doc: SettingsDoc)

  datatype Outcome = Outcome(res: Response, docs: seq<SettingsDoc>)

  /** `GET /api/settings` */
  function Read(docs: seq<SettingsDoc>): Response
  {
    if docs == [] then Error(NotFound404, NotFound) else Body(docs[0])
  }

  /** `PUT /api/settings`: the first document with the body assigned, saved
      when it passes validation and answered; a failed save is a 400 and
      nothing is stored. */
  function Update(docs: seq<SettingsDoc>, patch: SettingsPatch): Outcome
  {
    if docs == [] then Outcome(Error(NotFound404, NotFound), docs)
    else
      var doc := Assign(docs[0], patch);
      if !Conforms(doc) then Outcome(Invalid, docs)
      else Outcome(Body(doc), docs[0 := doc])
  }

  /** After seeding, reading never answers 404. */
  lemma ReadAfterSeed(docs: seq<SettingsDoc>)
    ensures Read(Seed(docs)).Body?
    ensures docs == [] ==> Read(Seed(docs)) == Body(Default)
  {
  }

  /** An update answers 404 exactly when there is no document and 400
      exactly when the assigned document breaks a rule (so a currency outside
      the enum is refused), and then stores nothing; otherwise it stores the
      assigned document, which the next read returns. */
  lemma UpdateSpec(docs: seq<SettingsDoc>, patch: SettingsPatch)
    ensures var o := Update(docs, patch);
            && (docs == [] <==> o.res == Error(NotFound404, NotFound))
            && (o.res.Error? || o.res.Invalid? ==> o.docs == docs)
            && (docs != [] ==> (o.res.Invalid? <==> !Conforms(Assign(docs[0], patch))))
            && (docs != [] && patch.currency.Some? && !KnownCurrency(patch.currency.value) ==> o.res.Invalid?)
            && (o.res.Body? ==> |o.docs| == |docs| && o.docs[1..] == docs[1..] && Read(o.docs) == o.res
                                && o.res.doc == Assign(docs[0], patch))
  {
    var o := Update(docs, patch);
    if o.res.Body? {
      assert o.docs[1..] == docs[1..];
    }
  }

  /** When every stored document is valid, updating keeps it so. */
  lemma UpdateKeepsValid(docs: seq<SettingsDoc>, patch: SettingsPatch)
    requires forall k :: 0 <= k < |docs| ==> Conforms(docs[k])
    ensures var o := Update(docs, patch);
            forall k :: 0 <= k < |o.docs| ==> Conforms(o.docs[k])
  {
  }

  /** The settings collection with its seeding and its two handlers. */
  class SettingsStore {
    var docs: seq<SettingsDoc>

    ghost predicate Valid()
      reads this
    {
      forall k :: 0 <= k < |docs| ==> Conforms(docs[k])
    }

    constructor ()
      ensures docs == [] && Valid()
    {
      docs := [];
    }

    method CreateDefaultSettings()
      requires Valid()
      modifies this
      ensures docs == Seed(old(docs)) && Valid()
    {
      if |docs| == 0 {
        docs := [SettingsDoc(DefaultName, DefaultEmail, DefaultCurrency, DefaultTimezone)];
      }
    }

    method Get() returns (res: Response)
      ensures res == Read(docs)
    {
      if |docs| == 0 {
        return Error(NotFound404, NotFound);
      }
      res := Body(docs[0]);
    }

    method Put(patch: SettingsPatch) returns (res: Response)
      requires Valid()
      modifies this
      ensures Outcome(res, docs) == Update(old(docs), patch) && Valid()
    {
      UpdateKeepsValid(docs, patch);
      if |docs| == 0 {
        return Error(NotFound404, NotFound);
      }
      var settings := docs[0];
      if patch.name.Some? { settings := settings.(name := patch.name.value); }
      if patch.email.Some? { settings := settings.(email := patch.email.value); }
      if patch.currency.Some? { settings := settings.(currency := patch.currency.value); }
      if patch.timezone.Some? { settings := settings.(timezone := patch.timezone.value); }
      if !Conforms(settings) {
        return Invalid;
      }
      docs := docs[0 := settings];
      res := Body(settings);
    }
  }
}
