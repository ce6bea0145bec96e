/** The entry form (components/transaction-form.tsx): its field state, the
    three checks on submit, the draft it hands to the store and the reset that
    follows. `Number(amount)`, the parse of the date field and the clock
    reading used for the reset are parameters. */
module Form {
  import opened Wrappers
  import opened Text
  import opened Ledger

  /** The category choices offered, the first being the default. */
  const CategoryChoices: seq<string> := [
    "General", "Food & Dining", "Housing", "Transportation", "Entertainment",
    "Savings", "Healthcare", "Utilities", "Travel", "Investments"]

  const DefaultCategory: string := "General"

  /** The value of `Number(amount)`: a finite number, or NaN or an infinity. */
  datatype Numeric = Finite(value: real) | NotFinite

  datatype FormError = MissingLabel | InvalidAmount | MissingTimestamp

  function Message(e: FormError): string
  {
    match e
    case MissingLabel => "Add a short label to remember this entry."
    case InvalidAmount => "Amount must be a positive number."
    case MissingTimestamp => "Pick when this happened."
  }

  /** What one press of the submit button does: reject the input with a
      message, hand a draft to the store, or fail while converting the date
      (`toISOString` throws on an invalid date). */
  datatype Outcome = Rejected(reason: FormError) | Submitted(draft: Draft) | Threw

  function Abs(x: real): real
  {
    if x < 0.0 then -x else x
  }

  /** The first failing check, in the order the form runs them. */
  function FirstError(labelText: string, amount: Numeric, occurredAt: string): Option<FormError>
  {
    if |Trim(labelText)| == 0 then Some(MissingLabel)
    else if amount.NotFinite? || amount.value <= 0.0 then Some(InvalidAmount)
    else if |occurredAt| == 0 then Some(MissingTimestamp)
    else None
  }

  /** The optional description: trimmed, and dropped when nothing is left. */
  function OptionalText(s: string): (r: Option<string>)
    ensures r.None? <==> |Trim(s)| == 0
    ensures r.Some? ==> r.value == Trim(s) && !IsSpace(r.value[0]) && !IsSpace(r.value[|r.value| - 1])
  {
    var t := Trim(s);
    if |t| == 0 then None else Some(t)
  }

  /** The outcome of submitting the given field values. `time` is the parse
      of the date field, `None` when it is not a valid date. */
  function SubmitOutcome(labelText: string, description: string, amount: Numeric, occurredAt: string,
                         time: Option<int>, kind: Kind, category: string): Outcome
  {
    match FirstError(labelText, amount, occurredAt)
    case Some(e) => Rejected(e)
    case None =>
      if time.None? then Threw
      else Submitted(Draft(Trim(labelText), OptionalText(description), Abs(amount.value), kind, category, time.value))
  }

  /** The checks run in order, and each one rejects exactly the input it names
      once the earlier ones have passed. */
  lemma ChecksRunInOrder(labelText: string, amount: Numeric, occurredAt: string)
    ensures FirstError(labelText, amount, occurredAt) == Some(MissingLabel) <==>
      forall k :: 0 <= k < |labelText| ==> IsSpace(labelText[k])
    ensures FirstError(labelText, amount, occurredAt) == Some(InvalidAmount) <==>
      |Trim(labelText)| > 0 && (amount.NotFinite? || amount.value <= 0.0)
    ensures FirstError(labelText, amount, occurredAt) == Some(MissingTimestamp) <==>
      |Trim(labelText)| > 0 && amount.Finite? && amount.value > 0.0 && occurredAt == ""
    ensures FirstError(labelText, amount, occurredAt) == None <==>
      |Trim(labelText)| > 0 && amount.Finite? && amount.value > 0.0 && occurredAt != ""
  {
  }

  /** A submitted draft carries the trimmed, non-empty label, the positive
      amount the user typed, a trimmed non-empty description or none, and the
      kind, category and time as chosen. */
  lemma SubmittedDraftIsWellFormed(labelText: string, description: string, amount: Numeric, occurredAt: string,
                                   time: Option<int>, kind: Kind, category: string)
    requires SubmitOutcome(labelText, description, amount, occurredAt, time, kind, category).Submitted?
    ensures var d := SubmitOutcome(labelText, description, amount, occurredAt, time, kind, category).draft;
      && d.labelText == Trim(labelText) && |d.labelText| > 0
      && !IsSpace(d.labelText[0]) && !IsSpace(d.labelText[|d.labelText| - 1])
      && amount.Finite? && d.amount == amount.value && d.amount > 0.0
      && (d.description.Some? ==> |d.description.value| > 0 && d.description.value == Trim(description))
      && d.kind == kind && d.category == category && time == Some(d.occurredAt)
  {
  }

  /** A draft the form submits keeps the ledger valid once the store adds it
      under a fresh id. */
  lemma SubmissionKeepsLedgerValid(state: State, labelText: string, description: string, amount: Numeric,
                                   occurredAt: string, time: Option<int>, kind: Kind, category: string,
                                   freshId: string, now: int)
    requires ValidLedger(state.transactions)
    requires freshId !in Ids(state.transactions)
    requires SubmitOutcome(labelText, description, amount, occurredAt, time, kind, category).Submitted?
    ensures var d := SubmitOutcome(labelText, description, amount, occurredAt, time, kind, category).draft;
      ValidLedger(Apply(state, Add(d), freshId, now).transactions)
  {
    var d := SubmitOutcome(labelText, description, amount, occurredAt, time, kind, category).draft;
    SubmittedDraftIsWellFormed(labelText, description, amount, occurredAt, time, kind, category);
    ApplyKeepsLedgerValid(state, Add(d), freshId, now);
  }

  /** The form's state: the text of each field, the chosen kind and the
      message on display. */
  class TransactionForm {
    var labelText: string
    var description: string
    var amount: string
    var category: string
    var kind: Kind
    var occurredAt: string
    var error: Option<string>

    /** A fresh form; `nowLocal` is the current local time as the date field
        shows it (minute precision). */
    constructor(nowLocal: string)
      ensures labelText == "" && description == "" && amount == ""
      ensures category == DefaultCategory == CategoryChoices[0] && kind == Credit
      ensures occurredAt == nowLocal && error == None
    {
      labelText, description, amount := "", "", "";
      category, kind := DefaultCategory, Credit;
      occurredAt := nowLocal;
      error := None;
    }

    /** The label, description, amount, category, kind and date fields. */
    function Fields(): (string, string, string, string, Kind, string)
      reads this
    {
      (labelText, description, amount, category, kind, occurredAt)
    }

    /** `handleSubmit`. `number` stands for `Number(...)`, `parseDate` for
        `new Date(...)` (`None` for an invalid date) and `nowLocal` for the
        clock reading used by the reset. A rejection only sets the message; a submission clears it and
        resets every field; a date that does not parse clears the message and
        stops before anything is submitted or reset. */
    method HandleSubmit(number: string -> Numeric, parseDate: string -> Option<int>, nowLocal: string)
      returns (outcome: Outcome)
      modifies this
      ensures outcome == SubmitOutcome(old(labelText), old(description), number(old(amount)), old(occurredAt),
                                       parseDate(old(occurredAt)), old(kind), old(category))
      ensures outcome.Rejected? ==> error == Some(Message(outcome.reason))
      ensures outcome.Threw? ==> error == None
      ensures !outcome.Submitted? ==>
        Fields() == old(Fields())
      ensures outcome.Submitted? ==>
        error == None && Fields() == ("", "", "", DefaultCategory, Credit, nowLocal)
    {
      var trimmed := Trim(labelText);
      var numericAmount := number(amount);
      if |trimmed| == 0 {
        error := Some(Message(MissingLabel));
        return Rejected(MissingLabel);
      }
      if numericAmount.NotFinite? || numericAmount.value <= 0.0 {
        error := Some(Message(InvalidAmount));
        return Rejected(InvalidAmount);
      }
      if |occurredAt| == 0 {
        error := Some(Message(MissingTimestamp));
        return Rejected(MissingTimestamp);
      }
      error := None;
      var time := parseDate(occurredAt);
      if time.None? {
        return Threw;
      }
      outcome := Submitted(Draft(trimmed, OptionalText(description), Abs(numericAmount.value), kind, category, time.value));
      labelText, description, amount := "", "", "";
      kind, category := Credit, DefaultCategory;
      occurredAt := nowLocal;
    }
  }
}
