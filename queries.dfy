/**
 * The physics test-query dataset (tests/test_queries.py): fifteen queries, each
 * with an identifier, the question, a topic category and the topics an answer
 * is expected to cover, and the three accessors over it.
 */
module Queries {
  import opened Wrappers

  /** One test query. */
  datatype TestQuery = TestQuery(id: string, query: string, category: string, expectedTopics: seq<string>)

  /** The question of each entry of `TEST_QUERIES`. */
  const TextQ1 :=
    "What " + "is Newto" + "n's " + "first " + "law " + "of motio" + "n? Expla" + "in with "
    + "examples" + " from " + "daily " + "life."
  const TextQ2 :=
    "Define " + "work " + "done " + "by a " + "force. " + "What " + "are " + "the " + "conditio"
    + "ns for " + "work " + "to be " + "done?"
  const TextQ3 :=
    "Explain " + "the " + "differen" + "ce betwe" + "en dista" + "nce " + "and " + "displace"
    + "ment " + "with " + "suitable" + " example" + "s."
  const TextQ4 :=
    "What " + "is the " + "law " + "of conse" + "rvation " + "of energ" + "y? Provi"
    + "de examp" + "les " + "to illus" + "trate " + "this " + "law."
  const TextQ5 :=
    "Derive " + "the " + "equation" + "s of " + "motion " + "for " + "uniforml" + "y accele"
    + "rated " + "motion " + "using " + "graphica" + "l method" + "."
  const TextQ6 :=
    "What " + "is gravi" + "tational" + " force? " + "State " + "the " + "universa" + "l law "
    + "of gravi" + "tation."
  const TextQ7 :=
    "Explain " + "Archimed" + "es' " + "principl" + "e and " + "its " + "applicat" + "ions "
    + "in daily" + " life."
  const TextQ8 :=
    "What " + "is the " + "differen" + "ce betwe" + "en heat " + "and " + "temperat" + "ure? "
    + "Explain " + "with " + "examples" + "."
  const TextQ9 :=
    "State " + "and " + "explain " + "Ohm's " + "law. " + "What " + "are " + "the " + "factors "
    + "affectin" + "g the " + "resistan" + "ce of " + "a conduc" + "tor?"
  const TextQ10 :=
    "What " + "is the " + "principl" + "e of " + "conserva" + "tion " + "of momen" + "tum? "
    + "Derive " + "it from " + "Newton's" + " laws " + "of motio" + "n."
  const TextQ11 :=
    "Explain " + "the " + "phenomen" + "on of " + "refracti" + "on of " + "light. " + "State "
    + "the " + "laws " + "of refra" + "ction."
  const TextQ12 :=
    "What " + "is kinet" + "ic energ" + "y and " + "potentia" + "l energy" + "? Derive"
    + " the " + "expressi" + "on for " + "kinetic " + "energy."
  const TextQ13 :=
    "Explain " + "the " + "concept " + "of power" + ". What " + "is the " + "SI unit "
    + "of power" + "?"
  const TextQ14 :=
    "What " + "are " + "the " + "three " + "methods " + "of heat " + "transfer" + "? Explai"
    + "n each " + "with " + "examples" + "."
  const TextQ15 :=
    "State " + "Fleming'" + "s left-h" + "and " + "rule " + "and " + "explain " + "its "
    + "applicat" + "ion " + "in elect" + "ric " + "motors."

  /** The expected topics of each entry. */
  const TopicsQ1: seq<string> := ["newton", "inertia", "motion", "force", "examples"]
  const TopicsQ2: seq<string> := ["work", "force", "displacement", "conditions"]
  const TopicsQ3: seq<string> := ["distance", "displacement", "scalar", "vector", "examples"]
  const TopicsQ4: seq<string> := ["conservation", "energy", "law", "examples", "transformation"]
  const TopicsQ5: seq<string> := ["equations", "motion", "acceleration", "velocity", "graph"]
  const TopicsQ6: seq<string> := ["gravity", "gravitational force", "universal law", "newton"]
  const TopicsQ7: seq<string> := ["archimedes", "buoyancy", "upthrust", "applications", "floating"]
  const TopicsQ8: seq<string> := ["heat", "temperature", "difference", "energy", "measurement"]
  const TopicsQ9: seq<string> := ["ohm", "law", "resistance", "current", "voltage", "factors"]
  const TopicsQ10: seq<string> := ["momentum", "conservation", "newton", "collision", "derivation"]
  const TopicsQ11: seq<string> := ["refraction", "light", "snell's law", "bending", "medium"]
  const TopicsQ12: seq<string> := ["kinetic", "potential", "energy", "expression", "derivation"]
  const TopicsQ13: seq<string> := ["power", "work", "time", "unit", "watt"]
  const TopicsQ14: seq<string> := ["conduction", "convection", "radiation", "heat transfer", "examples"]
  const TopicsQ15: seq<string> := ["fleming", "left hand rule", "magnetic field", "current", "motor"]

  /** The entries of `TEST_QUERIES`. */
  const QueryQ1 := TestQuery("Q1", TextQ1, "laws_of_motion", TopicsQ1)
  const QueryQ2 := TestQuery("Q2", TextQ2, "work_energy_power", TopicsQ2)
  const QueryQ3 := TestQuery("Q3", TextQ3, "kinematics", TopicsQ3)
  const QueryQ4 := TestQuery("Q4", TextQ4, "energy", TopicsQ4)
  const QueryQ5 := TestQuery("Q5", TextQ5, "kinematics", TopicsQ5)
  const QueryQ6 := TestQuery("Q6", TextQ6, "gravitation", TopicsQ6)
  const QueryQ7 := TestQuery("Q7", TextQ7, "fluid_mechanics", TopicsQ7)
  const QueryQ8 := TestQuery("Q8", TextQ8, "thermodynamics", TopicsQ8)
  const QueryQ9 := TestQuery("Q9", TextQ9, "electricity", TopicsQ9)
  const QueryQ10 := TestQuery("Q10", TextQ10, "laws_of_motion", TopicsQ10)
  const QueryQ11 := TestQuery("Q11", TextQ11, "optics", TopicsQ11)
  const QueryQ12 := TestQuery("Q12", TextQ12, "work_energy_power", TopicsQ12)
  const QueryQ13 := TestQuery("Q13", TextQ13, "work_energy_power", TopicsQ13)
  const QueryQ14 := TestQuery("Q14", TextQ14, "thermodynamics", TopicsQ14)
  const QueryQ15 := TestQuery("Q15", TextQ15, "electromagnetism", TopicsQ15)

  /** `TEST_QUERIES`, in order. */
  const TestQueries: seq<TestQuery> := [
    QueryQ1, QueryQ2, QueryQ3, QueryQ4, QueryQ5, QueryQ6, QueryQ7, QueryQ8,
    QueryQ9, QueryQ10, QueryQ11, QueryQ12, QueryQ13, QueryQ14, QueryQ15]

  /** No two entries of a query list share an identifier. */
  predicate DistinctIds(queries: seq<TestQuery>) {
    forall i, j | 0 <= i < j < |queries| :: queries[i].id != queries[j].id
  }

  /** The identifiers of a query list, in order. */
  function Ids(queries: seq<TestQuery>): (ids: seq<string>)
    ensures |ids| == |queries|
    ensures forall i | 0 <= i < |queries| :: ids[i] == queries[i].id
  {
    seq(|queries|, i requires 0 <= i < |queries| => queries[i].id)
  }

  /** The identifiers Q1 to Q15. */
  const QueryIds: seq<string> := ["Q1", "Q2", "Q3", "Q4", "Q5", "Q6", "Q7", "Q8",
                                  "Q9", "Q10", "Q11", "Q12", "Q13", "Q14", "Q15"]

  /** The dataset's identifiers are Q1 to Q15, in order. */
  lemma TestQueryIds()
    ensures Ids(TestQueries) == QueryIds
  {
  }

  /** The number written in decimal after the leading letter of an identifier. */
  function IdNumber(id: string): nat {
    if |id| <= 1 then 0
    else 10 * IdNumber(id[..|id| - 1]) + (if '0' <= id[|id| - 1] <= '9' then id[|id| - 1] as int - '0' as int else 0)
  }

  /** Identifier `i` is number `i + 1`. */
  lemma QueryIdNumbers()
    ensures forall i | 0 <= i < |QueryIds| :: IdNumber(QueryIds[i]) == i + 1
  {
  }

  /** Entry `i` of the dataset is query number `i + 1`. */
  lemma TestQueryNumbers()
    ensures forall i | 0 <= i < |TestQueries| :: IdNumber(TestQueries[i].id) == i + 1
  {
    TestQueryIds();
    QueryIdNumbers();
    forall i | 0 <= i < |TestQueries| ensures IdNumber(TestQueries[i].id) == i + 1 {
      assert TestQueries[i].id == Ids(TestQueries)[i] == QueryIds[i];
    }
  }

  /** No two queries of the dataset share an identifier. */
  lemma TestQueryIdsDistinct()
    ensures DistinctIds(TestQueries)
  {
    TestQueryNumbers();
  }

  /** `get_test_queries`: the whole dataset. */
  function GetTestQueries(): (queries: seq<TestQuery>)
    ensures |queries| == 15
    ensures DistinctIds(queries)
  {
    TestQueryIdsDistinct();
    TestQueries
  }

  /** The first query of the list with the identifier, if any. */
  function FirstWithId(queries: seq<TestQuery>, id: string): (found: Option<TestQuery>)
    ensures found.None? <==> forall i | 0 <= i < |queries| :: queries[i].id != id
    ensures found.Some? ==> exists i | 0 <= i < |queries| ::
      (queries[i] == found.value && forall k | 0 <= k < i :: queries[k].id != id)
    ensures found.Some? ==> found.value.id == id
  {
    if queries == [] then None
    else if queries[0].id == id then Some(queries[0])
    else
      var rest := FirstWithId(queries[1..], id);
      if rest.Some? then
        var i :| 0 <= i < |queries[1..]| && queries[1..][i] == rest.value
          && forall k | 0 <= k < i :: queries[1..][k].id != id;
        assert queries[i + 1] == rest.value;
        rest
      else rest
  }

  /** `get_query_by_id`: scan the dataset in order and return the first query with the
      identifier, or None. */
  method GetQueryById(queryId: string) returns (found: Option<TestQuery>)
    ensures found == FirstWithId(TestQueries, queryId)
  {
    var queries := GetTestQueries();
    var i := 0;
    while i < |queries|
      invariant 0 <= i <= |queries|
      invariant FirstWithId(queries, queryId) == FirstWithId(queries[i..], queryId)
    {
      if queries[i].id == queryId {
        return Some(queries[i]);
      }
      assert queries[i..][1..] == queries[i + 1..];
      i := i + 1;
    }
    return None;
  }

  /** With distinct identifiers, looking up the identifier of an entry finds that entry. */
  lemma {:induction false} FirstWithIdFindsEntry(queries: seq<TestQuery>, i: nat)
    requires DistinctIds(queries) && i < |queries|
    ensures FirstWithId(queries, queries[i].id) == Some(queries[i])
  {
    if i > 0 {
      assert DistinctIds(queries[1..]);
      assert queries[1..][i - 1] == queries[i];
      FirstWithIdFindsEntry(queries[1..], i - 1);
    }
  }

  /** Every query of the dataset is found by its own identifier. */
  lemma QueryByIdRoundTrip(i: nat)
    requires i < |TestQueries|
    ensures FirstWithId(TestQueries, TestQueries[i].id) == Some(TestQueries[i])
  {
    FirstWithIdFindsEntry(GetTestQueries(), i);
  }

  /** `[q for q in queries if q["category"] == category]`. */
  function InCategory(queries: seq<TestQuery>, category: string): (selected: seq<TestQuery>)
    ensures |selected| <= |queries|
    ensures forall k | 0 <= k < |selected| :: selected[k].category == category && selected[k] in queries
    ensures forall i | 0 <= i < |queries| && queries[i].category == category :: queries[i] in selected
  {
    if queries == [] then []
    else if queries[0].category == category then [queries[0]] + InCategory(queries[1..], category)
    else InCategory(queries[1..], category)
  }

  /** Filtering keeps the order of the list: filtering a concatenation is
      concatenating the filtered parts. */
  lemma {:induction false} InCategoryAppend(a: seq<TestQuery>, b: seq<TestQuery>, category: string)
    ensures InCategory(a + b, category) == InCategory(a, category) + InCategory(b, category)
  {
    if a == [] {
      assert a + b == b;
    } else {
      assert (a + b)[0] == a[0];
      assert (a + b)[1..] == a[1..] + b;
      InCategoryAppend(a[1..], b, category);
    }
  }

  /** `get_queries_by_category`: the dataset's queries of that category, in dataset order. */
  function GetQueriesByCategory(category: string): (selected: seq<TestQuery>)
    ensures forall k | 0 <= k < |selected| :: selected[k].category == category && selected[k] in TestQueries
    ensures forall i | 0 <= i < |TestQueries| && TestQueries[i].category == category :: TestQueries[i] in selected
  {
    InCategory(TestQueries, category)
  }

  /** Filtering on a category no entry has selects nothing. */
  lemma {:induction false} InCategoryNone(queries: seq<TestQuery>, category: string)
    requires forall i | 0 <= i < |queries| :: queries[i].category != category
    ensures InCategory(queries, category) == []
  {
    if queries != [] {
      InCategoryNone(queries[1..], category);
    }
  }

  /** A category no query has selects nothing. */
  lemma UnknownCategoryIsEmpty(category: string)
    requires forall i | 0 <= i < |TestQueries| :: TestQueries[i].category != category
    ensures GetQueriesByCategory(category) == []
  {
    InCategoryNone(TestQueries, category);
  }
}
