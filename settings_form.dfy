/** The admin settings form: the record it edits, its three change handlers,
    the toggle's checked state, and the body it sends to the settings route. */
module SettingsForm {
  import opened Js
  import opened Models
  import opened SettingsRoute
  import opened Checkout

  /** A field of the form's record: `null`, a number, or NaN (what
      `parseFloat` gives for an input it cannot read). */
  datatype FormNumber = FNull | FNum(v: int) | FNaN

  datatype Form = Form(threshold: FormNumber, fee: FormNumber)

  /** The record before the stored settings arrive. */
  const INITIAL_FORM: Form := Form(FNull, FNum(250))

  /** The stored settings as the form receives them. */
  function FromSettings(s: Settings): (r: Form)
    ensures r.threshold == FNull <==> s.threshold.None?
    ensures r.fee == FNull <==> s.fee.None?
    ensures s.threshold.Some? ==> r.threshold == FNum(s.threshold.value)
    ensures s.fee.Some? ==> r.fee == FNum(s.fee.value)
  {
    Form(if s.threshold.Some? then FNum(s.threshold.value) else FNull,
         if s.fee.Some? then FNum(s.fee.value) else FNull)
  }

  /** `parseFloat` of an input, given as the reading of that input (None for
      NaN). */
  function Parsed(reading: Option<int>): FormNumber {
    if reading.Some? then FNum(reading.value) else FNaN
  }

  /** `handleThresholdChange`: an empty input disables free delivery, any
      other input is read as a number. */
  function ThresholdChange(f: Form, input: string, reading: Option<int>): (r: Form)
    ensures r.fee == f.fee
    ensures input == "" <==> r.threshold == FNull
    ensures input != "" && reading.Some? ==> r.threshold == FNum(reading.value)
    ensures input != "" && reading.None? ==> r.threshold == FNaN
  {
    f.(threshold := if input == "" then FNull else Parsed(reading))
  }

  /** `handleDeliveryFeeChange`: an empty input is a fee of 0. */
  function FeeChange(f: Form, input: string, reading: Option<int>): (r: Form)
    ensures r.threshold == f.threshold
    ensures input == "" ==> r.fee == FNum(0)
    ensures input != "" && reading.Some? ==> r.fee == FNum(reading.value)
    ensures input != "" && reading.None? ==> r.fee == FNaN
  {
    f.(fee := if input == "" then FNum(0) else Parsed(reading))
  }

  /** `handleEnableFreeDelivery`: off sets the threshold to null, on to 2500. */
  function EnableFreeDelivery(f: Form, enabled: bool): (r: Form)
    ensures r.fee == f.fee
    ensures enabled ==> r.threshold == FNum(2500)
    ensures !enabled ==> r.threshold == FNull
  {
    f.(threshold := if enabled then FNum(2500) else FNull)
  }

  /** The toggle is checked while the threshold is not null (NaN included). */
  predicate Checked(f: Form) {
    f.threshold != FNull
  }

  lemma ToggleShowsItsState(f: Form, enabled: bool)
    ensures Checked(EnableFreeDelivery(f, enabled)) == enabled
    ensures Checked(ThresholdChange(f, "", None)) == false
  {
  }

  /** `JSON.stringify` of a field: NaN is written as `null`. */
  function Sent(x: FormNumber): (r: BodyNumber)
    ensures r.NullValue? || r.Number?
    ensures x.FNum? <==> r.Number?
    ensures x.FNum? ==> r == Number(x.v)
  {
    match x
    case FNum(v) => Number(v)
    case _ => NullValue
  }

  /** The body of `handleSaveSettings`, field by field. */
  function SaveBody(f: Form): (BodyNumber, BodyNumber) {
    (Sent(f.threshold), Sent(f.fee))
  }

  /** Whatever the form holds, the route accepts the save exactly when neither
      field is a negative number; a NaN is saved as null. */
  lemma SaveAcceptedUnlessNegative(doc: Option<Settings>, f: Form)
    ensures var (t, fee) := SaveBody(f);
            PutSettings(doc, t, fee).Updated? <==>
              !(f.threshold.FNum? && f.threshold.v < 0) && !(f.fee.FNum? && f.fee.v < 0)
    ensures f.threshold == FNaN ==> SaveBody(f).0 == NullValue
  {
  }

  /** A saved form comes back as it was sent, NaN as null. */
  lemma SaveRoundTrip(doc: Option<Settings>, f: Form)
    requires !(f.threshold.FNum? && f.threshold.v < 0) && !(f.fee.FNum? && f.fee.v < 0)
    requires f.threshold != FNaN && f.fee != FNaN
    ensures var (t, fee) := SaveBody(f);
            FromSettings(PutSettings(doc, t, fee).settings) == f
  {
  }

  /** Clearing the fee input saves a fee of 0, which checkout charges as 250. */
  lemma ClearedFeeCharges250(doc: Option<Settings>, f: Form)
    requires !(f.threshold.FNum? && f.threshold.v < 0)
    ensures var g := FeeChange(f, "", None);
            var (t, fee) := SaveBody(g);
            var r := PutSettings(doc, t, fee);
            r.Updated? && r.settings.fee == Some(0) && ChargedFee(r.settings) == 250
  {
  }

  /** Enabling free delivery and saving stores the 2500 threshold. */
  lemma EnableThenSave(doc: Option<Settings>, f: Form)
    requires !(f.fee.FNum? && f.fee.v < 0)
    ensures var (t, fee) := SaveBody(EnableFreeDelivery(f, true));
            PutSettings(doc, t, fee).Updated? && PutSettings(doc, t, fee).settings.threshold == Some(2500)
  {
  }
}
