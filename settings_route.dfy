/** The settings routes: GET returns the single settings document, creating
    it with the schema defaults when there is none; PUT validates the two
    fields of the body and writes the ones present into that document,
    creating it when needed. */
module SettingsRoute {
  import opened Js
  import opened Models

  /** A field of the request body, as the route's comparisons see it: absent
      (`undefined`), `null`, a value JavaScript reads as the number `v`, or one
      it reads as NaN. */
  datatype BodyNumber = Missing | NullValue | Number(v: int) | NotANumber

  /** `isNaN(x)`: `undefined` and non-numeric values are NaN, `null` reads as 0. */
  predicate IsNaN(x: BodyNumber) {
    x.Missing? || x.NotANumber?
  }

  /** `x < 0`: false for `undefined`, `null` (read as 0) and NaN. */
  predicate BelowZero(x: BodyNumber) {
    x.Number? && x.v < 0
  }

  /** `freeDeliveryThreshold !== null && (freeDeliveryThreshold < 0 || isNaN(freeDeliveryThreshold))`. */
  predicate ThresholdRejected(t: BodyNumber) {
    !t.NullValue? && (BelowZero(t) || IsNaN(t))
  }

  /** `deliveryFee !== undefined && (deliveryFee < 0 || isNaN(deliveryFee))`. */
  predicate FeeRejected(f: BodyNumber) {
    !f.Missing? && (BelowZero(f) || IsNaN(f))
  }

  /** The stored value of a field that passed validation: `null` or a number. */
  function Stored(x: BodyNumber): (r: Option<int>)
    requires x.NullValue? || x.Number?
    ensures r.None? <==> x.NullValue?
    ensures r.Some? ==> r.value == x.v
  {
    if x.Number? then Some(x.v) else None
  }

  /** The stored values are null or non-negative, as every write through
      these routes leaves them. */
  predicate Sane(s: Settings) {
    (s.threshold.Some? ==> s.threshold.value >= 0) && (s.fee.Some? ==> s.fee.value >= 0)
  }

  /** The document a write starts from: the stored one, or the defaults
      `setDefaultsOnInsert` fills in. */
  function Base(doc: Option<Settings>): (r: Settings)
    ensures doc.Some? ==> r == doc.value
    ensures doc.None? ==> r == DEFAULT_SETTINGS
  {
    if doc.Some? then doc.value else DEFAULT_SETTINGS
  }

  datatype PutResponse = BadRequest | Updated(settings: Settings)

  /** The PUT route: 400 when either field fails its check; otherwise the
      threshold (always present by then) and, when present, the fee replace
      the stored values and the other fields keep theirs. */
  function PutSettings(doc: Option<Settings>, t: BodyNumber, f: BodyNumber): (r: PutResponse)
    ensures r == BadRequest <==> ThresholdRejected(t) || FeeRejected(f)
    ensures r.Updated? ==> !t.Missing? && r.settings.threshold == Stored(t)
    ensures r.Updated? && f.Missing? ==> r.settings.fee == Base(doc).fee
    ensures r.Updated? && !f.Missing? ==> r.settings.fee == Stored(f)
  {
    if ThresholdRejected(t) || FeeRejected(f) then BadRequest
    else
      var s := Base(doc);
      var s1 := s.(threshold := Stored(t));
      Updated(if f.Missing? then s1 else s1.(fee := Stored(f)))
  }

  /** A body without `freeDeliveryThreshold` is rejected, as `isNaN(undefined)`
      holds; thresholds of 0 and null are accepted. */
  lemma ThresholdChecks(doc: Option<Settings>, f: BodyNumber)
    ensures PutSettings(doc, Missing, f) == BadRequest
    ensures !FeeRejected(f) ==> PutSettings(doc, Number(0), f).Updated? && PutSettings(doc, NullValue, f).Updated?
  {
  }

  /** The fee may be omitted (kept) or null (stored as null, which checkout
      charges as 250); a negative or non-numeric fee is rejected. */
  lemma FeeChecks(doc: Option<Settings>, t: BodyNumber, v: int)
    requires !ThresholdRejected(t)
    ensures PutSettings(doc, t, Missing).Updated? && PutSettings(doc, t, Missing).settings.fee == Base(doc).fee
    ensures PutSettings(doc, t, NullValue).Updated? && PutSettings(doc, t, NullValue).settings.fee.None?
    ensures v < 0 ==> PutSettings(doc, t, Number(v)) == BadRequest
    ensures PutSettings(doc, t, NotANumber) == BadRequest
  {
  }

  /** Accepted writes keep the stored settings sane. */
  lemma PutKeepsSane(doc: Option<Settings>, t: BodyNumber, f: BodyNumber)
    requires doc.Some? ==> Sane(doc.value)
    ensures PutSettings(doc, t, f).Updated? ==> Sane(PutSettings(doc, t, f).settings)
  {
  }

  /** The single settings document, or None while there is none. */
  class SettingsStore {
    var doc: Option<Settings>

    ghost predicate Valid()
      reads this
    {
      doc.Some? ==> Sane(doc.value)
    }

    constructor ()
      ensures Valid() && doc.None?
    {
      doc := None;
    }

    /** GET: the stored document, created with the defaults when missing. */
    method Get() returns (s: Settings)
      requires Valid()
      modifies this
      ensures Valid() && doc == Some(s)
      ensures old(doc).Some? ==> s == old(doc).value
      ensures old(doc).None? ==> s == DEFAULT_SETTINGS
    {
      if doc.None? {
        doc := Some(DEFAULT_SETTINGS);
      }
      s := doc.value;
    }

    /** PUT: validation first, then the upsert; a 400 leaves the store as it
        was. */
    method Put(t: BodyNumber, f: BodyNumber) returns (r: PutResponse)
      requires Valid()
      modifies this
      ensures Valid() && r == PutSettings(old(doc), t, f)
      ensures r == BadRequest ==> doc == old(doc)
      ensures r.Updated? ==> doc == Some(r.settings)
    {
      if ThresholdRejected(t) {
        return BadRequest;
      }
      if FeeRejected(f) {
        return BadRequest;
      }
      var s := Base(doc);
      s := s.(threshold := Stored(t));
      if !f.Missing? {
        s := s.(fee := Stored(f));
      }
      PutKeepsSane(doc, t, f);
      doc := Some(s);
      r := Updated(s);
    }
  }
}
