/**
 * The FAQ knowledge base: rows keyed by id, and a fixed table from six intents to
 * FAQ ids. Reading and parsing the FAQ file is not part of this model; its rows
 * are given as a sequence.
 */
module KnowledgeBase {
  import opened Wrappers
  import IntentModel

  /** One row of the FAQ file; `question` and `answer` may be missing from a row. */
  datatype FaqRow = FaqRow(id: string, question: Option<string>, answer: Option<string>)

  /** `{row["id"]: row for row in rows}`: rows inserted in order, so a later row wins. */
  function ItemsOf(rows: seq<FaqRow>): (items: map<string, FaqRow>)
    ensures forall k | 0 <= k < |rows| :: rows[k].id in items
    ensures |items| <= |rows|
    ensures rows != [] ==> items[rows[|rows| - 1].id] == rows[|rows| - 1]
  {
    if rows == [] then map[]
    else ItemsOf(rows[..|rows| - 1])[rows[|rows| - 1].id := rows[|rows| - 1]]
  }

  /** `items` holds exactly the ids of the rows, each mapped to the last row with that id. */
  lemma {:induction false} ItemsOfLastRowWins(rows: seq<FaqRow>, id: string)
    ensures id in ItemsOf(rows) <==> exists k | 0 <= k < |rows| :: rows[k].id == id
    ensures id in ItemsOf(rows) ==>
      exists k | 0 <= k < |rows| :: rows[k].id == id && ItemsOf(rows)[id] == rows[k]
                                    && forall j | k < j < |rows| :: rows[j].id != id
  {
    if rows != [] {
      var init := rows[..|rows| - 1];
      ItemsOfLastRowWins(init, id);
      if rows[|rows| - 1].id != id && id in ItemsOf(init) {
        var k :| 0 <= k < |init| && init[k].id == id && ItemsOf(init)[id] == init[k]
                 && forall j | k < j < |init| :: init[j].id != id;
        assert rows[k] == init[k];
      }
      if rows[|rows| - 1].id != id {
        assert forall k | 0 <= k < |init| :: rows[k] == init[k];
      }
    }
  }

  /** `get_answer`: the answer of the row filed under `faqId`; None without such a row. */
  function GetAnswer(items: map<string, FaqRow>, faqId: string): (r: Option<string>)
    ensures faqId !in items ==> r == None
    ensures faqId in items ==> r == items[faqId].answer
  {
    if faqId in items then items[faqId].answer else None
  }

  /** `INTENT_TO_FAQ` */
  const IntentToFaq: map<string, string> := map[
    "faq_find_station" := "find_station",
    "faq_cost" := "cost",
    "faq_hours" := "hours",
    "faq_incentives" := "incentives",
    "faq_requirements" := "requirements",
    "apply_how" := "apply"
  ]

  /** Every mapped intent is one the classifier's pattern table can produce. */
  lemma MappedIntentsAreClassifierIntents()
    ensures forall intent | intent in IntentToFaq ::
      exists k | 0 <= k < |IntentModel.IntentPatterns| :: IntentModel.IntentPatterns[k].intent == intent
  {
    var table := IntentModel.IntentPatterns;
    assert table[3].intent == "faq_find_station" && table[4].intent == "faq_cost";
    assert table[5].intent == "faq_hours" && table[6].intent == "faq_incentives";
    assert table[7].intent == "faq_requirements" && table[8].intent == "apply_how";
  }

  /**
   * `answer_for_intent`: None for an intent outside the six mapped ones, and otherwise
   * the answer of the FAQ id the intent maps to.
   */
  function AnswerForIntent(items: map<string, FaqRow>, intent: string): (r: Option<string>)
    ensures intent !in IntentToFaq ==> r == None
    ensures intent in IntentToFaq ==> r == GetAnswer(items, IntentToFaq[intent])
  {
    if intent !in IntentToFaq || IntentToFaq[intent] == "" then None
    else GetAnswer(items, IntentToFaq[intent])
  }

  /**
   * Lookups against the loaded rows: the answer for an intent is that of the last row
   * whose id the intent maps to; it is None when the intent is unmapped or no row has
   * that id.
   */
  lemma AnswerForIntentFromRows(rows: seq<FaqRow>, intent: string)
    ensures intent !in IntentToFaq ==> AnswerForIntent(ItemsOf(rows), intent) == None
    ensures intent in IntentToFaq && (forall k | 0 <= k < |rows| :: rows[k].id != IntentToFaq[intent]) ==>
      AnswerForIntent(ItemsOf(rows), intent) == None
    ensures intent in IntentToFaq ==> forall k | 0 <= k < |rows| && rows[k].id == IntentToFaq[intent]
      && (forall j | k < j < |rows| :: rows[j].id != IntentToFaq[intent]) ::
      AnswerForIntent(ItemsOf(rows), intent) == rows[k].answer
  {
    if intent in IntentToFaq {
      ItemsOfLastRowWins(rows, IntentToFaq[intent]);
    }
  }
}
