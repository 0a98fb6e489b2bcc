/**
 * The suggested-articles panel: when to ask the external suggestion
 * service, what its answer does to the shown suggestions, and which of
 * four states the panel renders.
 */
module SuggestedArticles {

  /** The lookup is requested only once both fields pass these lengths. */
  const SubjectTrigger: nat := 4
  const DescriptionTrigger: nat := 19

  /** The number of placeholder rows shown while a lookup is pending. */
  const SkeletonCount: nat := 3

  /** Both fields are long enough to ask for suggestions; neither is then empty. */
  function TriggersLookup(subject: string, description: string): (b: bool)
    ensures b ==> subject != "" && description != ""
  {
    |subject| > SubjectTrigger && |description| > DescriptionTrigger
  }

  /** What the suggestion service answers: a list of article titles, or a failure. */
  datatype LookupOutcome = Found(articles: seq<string>) | Failed

  /** A lookup in flight: the pair it was asked about. */
  datatype Query = Query(subject: string, description: string)

  /** The four things the panel can show. */
  datatype Panel =
    | StartTypingPrompt
    | Skeletons(count: nat)
    | NoSuggestions
    | ArticleList(titles: seq<string>)

  /**
   * The render choice: the prompt when both fields are empty, placeholders
   * while a lookup is pending, "No suggestions found" when there are none,
   * and otherwise one entry per suggestion, in order.
   */
  function RenderPanel(subject: string, description: string, isPending: bool, suggestions: seq<string>): (p: Panel)
    ensures p.StartTypingPrompt? <==> subject == "" && description == ""
    ensures p.Skeletons? <==> (subject != "" || description != "") && isPending
    ensures p.Skeletons? ==> p.count == SkeletonCount
    ensures p.NoSuggestions? <==> (subject != "" || description != "") && !isPending && suggestions == []
    ensures p.ArticleList? ==> p.titles == suggestions && suggestions != [] && !isPending
  {
    if subject == "" && description == "" then StartTypingPrompt
    else if isPending then Skeletons(SkeletonCount)
    else if |suggestions| == 0 then NoSuggestions
    else ArticleList(suggestions)
  }

  /** The panel's own state. */
  class SuggestionPanel {
    var suggestions: seq<string>
    var inFlight: multiset<Query>   // lookups started and not yet answered

    constructor ()
      ensures suggestions == [] && inFlight == multiset{}
    {
      suggestions, inFlight := [], multiset{};
    }

    /** `isPending`: some started lookup has not been answered yet. */
    function IsPending(): (b: bool)
      reads this
      ensures b <==> exists q :: q in inFlight
    {
      |inFlight| > 0
    }

    /**
     * The effect run when the (subject, description) props change: start a
     * lookup exactly when both pass the thresholds. The shown suggestions
     * are not touched here.
     */
    method OnPropsChange(subject: string, description: string) returns (started: bool)
      modifies this`inFlight
      ensures started <==> TriggersLookup(subject, description)
      ensures inFlight == old(inFlight) + (if started then multiset{Query(subject, description)} else multiset{})
    {
      started := false;
      if TriggersLookup(subject, description) {
        inFlight := inFlight + multiset{Query(subject, description)};
        started := true;
      }
    }

    /**
     * The answer to one lookup in flight arrives. A success replaces the
     * suggestions by the returned titles; a failure empties them and is not
     * reported. Answers are applied in the order they arrive, whichever
     * lookup they belong to.
     */
    method Settle(q: Query, outcome: LookupOutcome)
      requires q in inFlight
      modifies this
      ensures inFlight == old(inFlight) - multiset{q}
      ensures outcome.Found? ==> suggestions == outcome.articles
      ensures outcome.Failed? ==> suggestions == []
    {
      inFlight := inFlight - multiset{q};
      match outcome {
        case Found(articles) => suggestions := articles;
        case Failed => suggestions := [];
      }
    }

    /** The panel for the given props, in the current state. */
    function Render(subject: string, description: string): (p: Panel)
      reads this
      ensures p.StartTypingPrompt? <==> subject == "" && description == ""
      ensures p.Skeletons? <==> (subject != "" || description != "") && IsPending()
      ensures p.NoSuggestions? <==> (subject != "" || description != "") && !IsPending() && suggestions == []
      ensures p.ArticleList? ==> p.titles == suggestions
    {
      RenderPanel(subject, description, IsPending(), suggestions)
    }
  }
}
