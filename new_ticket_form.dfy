/**
 * The new-ticket form: its field constraints, and the (subject,
 * description) pair it commits on blur and hands to the suggestions panel.
 */
module NewTicketForm {
  import opened Wrappers
  import SuggestedArticles

  const MinSubjectLength: nat := 5
  const MinDescriptionLength: nat := 20

  /**
   * The form's values. Category and priority stay unset until chosen; the
   * optional attachment accepts anything and is not represented.
   */
  datatype FormValues = FormValues(
    subject: string,
    category: Option<string>,
    priority: Option<string>,
    description: string)

  datatype FieldError = SubjectTooShort | CategoryRequired | PriorityRequired | DescriptionTooShort

  /** The schema's verdict: one error per failing field, in field order. */
  function Validate(v: FormValues): (errors: seq<FieldError>)
    ensures SubjectTooShort in errors <==> |v.subject| < MinSubjectLength
    ensures CategoryRequired in errors <==> v.category.None?
    ensures PriorityRequired in errors <==> v.priority.None?
    ensures DescriptionTooShort in errors <==> |v.description| < MinDescriptionLength
    ensures forall i, j :: 0 <= i < j < |errors| ==> errors[i] != errors[j]
  {
    (if |v.subject| < MinSubjectLength then [SubjectTooShort] else [])
    + (if v.category.None? then [CategoryRequired] else [])
    + (if v.priority.None? then [PriorityRequired] else [])
    + (if |v.description| < MinDescriptionLength then [DescriptionTooShort] else [])
  }

  /**
   * The schema's length minimums are exactly the panel's lookup thresholds:
   * a pair passes both field checks iff it triggers a lookup.
   */
  lemma SchemaMatchesLookupTrigger(v: FormValues)
    ensures (SubjectTooShort !in Validate(v) && DescriptionTooShort !in Validate(v))
            <==> SuggestedArticles.TriggersLookup(v.subject, v.description)
  {
  }

  /** A valid form has a non-empty subject and description, so a blur commits them. */
  lemma ValidFormIsCommitted(v: FormValues)
    requires Validate(v) == []
    ensures v.subject != "" && v.description != ""
    ensures SuggestedArticles.TriggersLookup(v.subject, v.description)
  {
    assert SubjectTooShort !in Validate(v);
    assert DescriptionTooShort !in Validate(v);
  }

  /** The form: its live values and the committed pair (`ticketDetails`). */
  class TicketForm {
    var values: FormValues
    var committedSubject: string
    var committedDescription: string

    /** The committed pair is either the initial ("", "") or two non-empty strings. */
    ghost predicate Valid()
      reads this
    {
      (committedSubject == "") == (committedDescription == "")
    }

    constructor ()
      ensures Valid()
      ensures values == FormValues("", None, None, "")
      ensures committedSubject == "" && committedDescription == ""
    {
      values := FormValues("", None, None, "");
      committedSubject, committedDescription := "", "";
    }

    /** The user edits the fields. */
    method SetValues(v: FormValues)
      modifies this`values
      ensures values == v
    {
      values := v;
    }

    /**
     * `handleBlur`: commit the current subject and description when both
     * are non-empty; otherwise keep the committed pair.
     */
    method HandleBlur()
      requires Valid()
      modifies this`committedSubject, this`committedDescription
      ensures Valid()
      ensures values.subject != "" && values.description != "" ==>
        committedSubject == values.subject && committedDescription == values.description
      ensures values.subject == "" || values.description == "" ==>
        committedSubject == old(committedSubject) && committedDescription == old(committedDescription)
    {
      var subject, description := values.subject, values.description;
      if subject != "" && description != "" {
        committedSubject, committedDescription := subject, description;
      }
    }

    /**
     * What the suggestions panel shows next to the form: it is fed the
     * committed pair, not the live field values.
     */
    function PanelView(p: SuggestedArticles.SuggestionPanel): (v: SuggestedArticles.Panel)
      reads this, p
      ensures v.StartTypingPrompt? <==> committedSubject == "" && committedDescription == ""
      ensures v.Skeletons? <==> (committedSubject != "" || committedDescription != "") && p.IsPending()
      ensures v.ArticleList? ==> v.titles == p.suggestions
    {
      p.Render(committedSubject, committedDescription)
    }
  }

  /**
   * Fed from this form, the panel shows the "start typing" prompt exactly
   * while nothing has been committed.
   */
  lemma PromptIffNothingCommitted(f: TicketForm, p: SuggestedArticles.SuggestionPanel)
    requires f.Valid()
    ensures f.PanelView(p).StartTypingPrompt? <==> f.committedSubject == ""
  {
  }
}
