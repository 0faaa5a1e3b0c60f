/**
 * The reference answers used by the advanced metrics (tests/reference_answers.py):
 * a dictionary from query identifier to a model answer, and its two accessors.
 * The answer texts are written as concatenations of short pieces; the pieces
 * join to exactly the stored strings.
 */
module References {
  import opened Wrappers
  import opened Queries
  import Retrieval
  import Report

  /** The keys of `REFERENCE_ANSWERS`. */
  const ReferenceIds: seq<string> := ["Q1", "Q2", "Q3", "Q4", "Q5", "Q6", "Q7", "Q8",
                                      "Q9", "Q10", "Q11", "Q12", "Q13", "Q14", "Q15"]

  /** The answer stored under a key. The fifteen texts sit in three functions of five,
      so that the non-emptiness of each group is established on its own. */
  function AnswerText(id: string): (answer: string)
    requires id in ReferenceIds
    ensures |answer| > 0
  {
    if id in ReferenceIds[..5] then AnswersQ1ToQ5(id)
    else if id in ReferenceIds[5..10] then AnswersQ6ToQ10(id)
    else AnswersQ11ToQ15(id)
  }

  /** The answers to Q1 to Q5. */
  function AnswersQ1ToQ5(id: string): (answer: string)
    requires id in ReferenceIds[..5]
    ensures |answer| > 0
  {
    if id == "Q1" then
        "Newton's " + "first " + "law of " + "motion " + "states " + "that " + "an object "
        + "at rest " + "will " + "remain " + "at rest " + "\n    and an " + "object " + "in motion "
        + "will " + "continue " + "in motion " + "with " + "the same " + "velocity " + "(speed "
        + "and direction)" + " \n    unless " + "acted " + "upon " + "by an " + "external "
        + "unbalanced " + "force. " + "This " + "property " + "of objects " + "to resist " + "changes "
        + "\n    in their " + "state " + "of motion " + "is called " + "inertia. " + "For example, "
        + "a book " + "lying " + "on a " + "table " + "stays " + "at \n    rest " + "unless "
        + "someone " + "picks " + "it up, " + "and a " + "moving " + "ball " + "continues " + "rolling "
        + "until " + "friction " + "stops " + "it."
    else if id == "Q2" then
        "Work " + "is said " + "to be " + "done " + "when " + "a force " + "applied " + "on an "
        + "object " + "causes " + "a displacement" + " in \n    the " + "direction " + "of the "
        + "force. " + "The work " + "done " + "by a " + "force " + "is defined " + "as the "
        + "product " + "of the " + "force " + "\n    and the " + "displacement " + "in the "
        + "direction " + "of the " + "force. " + "Work " + "= Force " + "\U{D7} Displacement"
        + " \U{D7} cos(\U{3B8}), " + "\n    where " + "\U{3B8} is " + "the angle " + "between "
        + "force " + "and displaceme" + "nt. For " + "work " + "to be " + "done, " + "two conditions"
        + " must " + "\n    be satisf" + "ied: " + "(1) A " + "force " + "must " + "be applied, "
        + "and (2) " + "The object " + "must " + "be displaced " + "in the " + "direction "
        + "\n    of the " + "force."
    else if id == "Q3" then
        "Distance " + "is the " + "actual " + "length " + "of the " + "path " + "traveled " + "by an "
        + "object " + "between " + "two points, " + "\n    regardles" + "s of " + "direction. "
        + "It is " + "a scalar " + "quantity " + "and is " + "always " + "positive. " + "Displacement "
        + "is the " + "\n    shortest " + "straight-line " + "distance " + "between " + "the initial "
        + "and final " + "positions " + "of an " + "object, " + "measured " + "\n    in a "
        + "particular " + "direction. " + "It is " + "a vector " + "quantity " + "and can "
        + "be positive, " + "negative, " + "or zero. " + "\n    For examp" + "le, if " + "you walk "
        + "3 meters " + "east " + "and then " + "4 meters " + "north, " + "the distance " + "traveled "
        + "is 7 " + "meters, " + "\n    but the " + "displacement " + "is 5 " + "meters " + "in the "
        + "northeast " + "direction."
    else if id == "Q4" then
        "The law " + "of conservatio" + "n of " + "energy " + "states " + "that " + "energy "
        + "can neither " + "be created " + "nor destroyed;" + " \n    it can " + "only "
        + "be transformed" + " from " + "one form " + "to another. " + "The total " + "energy "
        + "of an " + "isolated " + "system " + "remains " + "\n    constant." + " For example, "
        + "in a " + "pendulum, " + "potential " + "energy " + "converts " + "to kinetic " + "energy "
        + "and back. " + "When " + "\n    you drop " + "a ball, " + "its gravitatio" + "nal potential "
        + "energy " + "converts " + "to kinetic " + "energy " + "as it " + "falls. " + "In \n    hydroe"
        + "lectric " + "dams, " + "the potential " + "energy " + "of water " + "is converted "
        + "to kinetic " + "energy " + "and then " + "to \n    electr" + "ical " + "energy."
    else // Q5
        "The three " + "equations " + "of motion " + "for uniformly " + "accelerated " + "motion "
        + "can be " + "derived " + "using " + "\n    velocity-" + "time " + "graphs. " + "First "
        + "equation: " + "v = u " + "+ at, " + "derived " + "from " + "the slope " + "of v-t "
        + "graph " + "(acceleration)" + ". \n    Second " + "equation: " + "s = ut "
        + "+ \U{BD}at\U{B2}, " + "derived " + "from " + "the area " + "under " + "the v-t " + "graph "
        + "representing " + "displacement. " + "\n    Third " + "equation: " + "v\U{B2} = "
        + "u\U{B2} + " + "2as, " + "derived " + "by eliminating" + " time " + "from " + "the first "
        + "two equations." + " Here, " + "\n    u is " + "initial " + "velocity, " + "v is " + "final "
        + "velocity, " + "a is " + "acceleration, " + "t is " + "time, " + "and s " + "is displacemen"
        + "t."
  }

  /** The answers to Q6 to Q10. */
  function AnswersQ6ToQ10(id: string): (answer: string)
    requires id in ReferenceIds[5..10]
    ensures |answer| > 0
  {
    if id == "Q6" then
        "Gravitational " + "force " + "is the " + "force " + "of attraction " + "between "
        + "any two " + "objects " + "in the " + "universe. " + "\n    The unive" + "rsal " + "law of "
        + "gravitation, " + "stated " + "by Newton, " + "says " + "that " + "every " + "object "
        + "in the " + "universe " + "attracts " + "\n    every " + "other " + "object " + "with "
        + "a force " + "that " + "is directly " + "proportional " + "to the " + "product " + "of their "
        + "masses " + "and \n    inver" + "sely " + "proportional " + "to the " + "square " + "of the "
        + "distance " + "between " + "their " + "centers. " + "Mathematically" + ": \n    F "
        + "= G(m\U{2081}m\U{2082})/r\U{B2}, " + "where " + "G is " + "the universal " + "gravitational "
        + "constant " + "(6.67 " + "\U{D7} 10\U{207B}\U{B9}\U{B9} " + "Nm\U{B2}/kg\U{B2})."
    else if id == "Q7" then
        "Archimedes' " + "principle " + "states " + "that " + "when " + "a body " + "is partially "
        + "or completely " + "immersed " + "in a " + "\n    fluid, " + "it experiences" + " an upward "
        + "force " + "called " + "buoyant " + "force " + "(or upthrust)," + " which " + "is equal "
        + "to the " + "\n    weight " + "of the " + "fluid " + "displaced " + "by the " + "body. "
        + "Applications " + "include: " + "(1) Ships " + "float " + "because " + "the \n    buoya"
        + "nt force " + "equals " + "their " + "weight, " + "(2) Submarines" + " control " + "buoyancy "
        + "by adjusting " + "water " + "in tanks, " + "\n    (3) Hydro" + "meters " + "measure "
        + "liquid " + "density " + "using " + "buoyancy, " + "(4) Hot " + "air balloons " + "rise "
        + "because " + "hot air " + "\n    is less " + "dense " + "than " + "surrounding " + "air."
    else if id == "Q8" then
        "Heat " + "is a " + "form " + "of energy " + "that " + "flows " + "from " + "a body "
        + "at higher " + "temperature " + "to a " + "body " + "at lower " + "\n    temperatu"
        + "re. It " + "is measured " + "in joules " + "(J) or " + "calories " + "(cal). "
        + "Temperature " + "is the " + "degree " + "of hotness " + "\n    or coldne" + "ss of "
        + "a body, " + "measured " + "in degrees " + "Celsius " + "(\U{B0}C), " + "Kelvin " + "(K), "
        + "or Fahrenheit " + "(\U{B0}F). " + "The main " + "\n    differenc" + "e is " + "that "
        + "heat " + "is energy " + "in transit, " + "while " + "temperature " + "is a " + "measure "
        + "of the " + "average " + "kinetic " + "\n    energy " + "of molecules. " + "For example, "
        + "a cup " + "of water " + "at 50\U{B0}C " + "has less " + "heat " + "than " + "a bucket "
        + "of water " + "at \n    50\U{B0}C, " + "though " + "both " + "have " + "the same "
        + "temperature."
    else if id == "Q9" then
        "Ohm's " + "law states " + "that " + "the electric " + "current " + "flowing " + "through "
        + "a conductor " + "is directly " + "\n    proportio" + "nal to " + "the potential "
        + "difference " + "(voltage) " + "applied " + "across " + "its ends, " + "provided "
        + "the physical " + "\n    condition" + "s (temperature" + ", etc.) " + "remain " + "constant. "
        + "Mathematically" + ": V = " + "IR, where " + "V is " + "voltage, " + "I is "
        + "\n    current, " + "and R " + "is resistance." + " The resistanc" + "e of " + "a conductor "
        + "depends " + "on: (1) " + "Length " + "- resistance " + "\n    increases" + " with "
        + "length, " + "(2) Cross-sect" + "ional " + "area " + "- resistance " + "decreases " + "with "
        + "larger " + "area, " + "\n    (3) Mater" + "ial - " + "different " + "materials " + "have "
        + "different " + "resistivities," + " (4) Temperatu" + "re - " + "for most " + "\n    conductor"
        + "s, resistance " + "increases " + "with " + "temperature."
    else // Q10
        "The principle " + "of conservatio" + "n of " + "momentum " + "states " + "that "
        + "the total " + "momentum " + "of a " + "system " + "\n    remains " + "constant " + "if no "
        + "external " + "force " + "acts " + "on it. " + "This " + "can be " + "derived " + "from "
        + "Newton's " + "second " + "and \n    third" + " laws. " + "When " + "two objects "
        + "collide, " + "the force " + "exerted " + "by object " + "A on " + "object " + "B is "
        + "equal " + "and \n    oppos" + "ite to " + "the force " + "exerted " + "by object " + "B on "
        + "object " + "A (Newton's " + "third " + "law). " + "Since " + "F = ma "
        + "= m(\U{394}v/\U{394}t), " + "\n    and force" + "s are " + "equal " + "and opposite, "
        + "the change " + "in momentum " + "of A " + "equals " + "the negative " + "change "
        + "in momentum " + "\n    of B. " + "Therefore, " + "total " + "momentum " + "before "
        + "collision " + "equals " + "total " + "momentum " + "after " + "collision."
  }

  /** The answers to Q11 to Q15. */
  function AnswersQ11ToQ15(id: string): (answer: string)
    requires id in ReferenceIds[10..15]
    ensures |answer| > 0
  {
    if id == "Q11" then
        "Refraction " + "of light " + "is the " + "bending " + "of light " + "when " + "it passes "
        + "from " + "one transparen" + "t medium " + "\n    to anothe" + "r due " + "to change "
        + "in its " + "speed. " + "The laws " + "of refraction " + "are: " + "(1) The " + "incident "
        + "ray, " + "refracted " + "\n    ray, " + "and normal " + "to the " + "interface " + "at the "
        + "point " + "of incidence " + "all lie " + "in the " + "same " + "plane. " + "(2) The "
        + "ratio " + "\n    of sine " + "of angle " + "of incidence " + "to the " + "sine "
        + "of angle " + "of refraction " + "is constant " + "for a " + "given " + "pair "
        + "of \n    media." + " This " + "is known " + "as Snell's " + "law: " + "sin(i)/sin(r) "
        + "= n\U{2082}/n\U{2081}, " + "where " + "n is " + "the refractive" + " index."
    else if id == "Q12" then
        "Kinetic " + "energy " + "is the " + "energy " + "possessed " + "by a " + "body " + "due to "
        + "its motion. " + "Potential " + "energy " + "is \n    the " + "energy " + "possessed "
        + "by a " + "body " + "due to " + "its position " + "or configurati" + "on. The "
        + "expression " + "for kinetic " + "\n    energy " + "can be " + "derived: " + "Consider "
        + "a body " + "of mass " + "m at " + "rest. " + "A force " + "F is " + "applied, " + "causing "
        + "acceleration " + "a \n    over " + "distance " + "s. Work " + "done " + "W = F "
        + "\U{D7} s = " + "ma \U{D7} " + "s. Using " + "v\U{B2} = " + "u\U{B2} + " + "2as (with "
        + "u = 0), " + "we get " + "s = v\U{B2}/2a. " + "\n    Therefore" + ", W = " + "ma \U{D7} "
        + "v\U{B2}/2a " + "= \U{BD}mv\U{B2}. " + "This " + "work " + "done " + "is stored "
        + "as kinetic " + "energy, " + "so KE " + "= \U{BD}mv\U{B2}."
    else if id == "Q13" then
        "Power " + "is the " + "rate " + "at which " + "work " + "is done " + "or energy "
        + "is transferred" + ". It " + "measures " + "how quickly " + "\n    work " + "is performed. "
        + "Mathematically" + ": Power " + "= Work " + "done " + "/ Time " + "taken, " + "or P "
        + "= W/t. " + "The SI " + "unit " + "of power " + "\n    is the " + "watt " + "(W), " + "named "
        + "after " + "James " + "Watt. " + "One watt " + "is defined " + "as the " + "power " + "of an "
        + "agent " + "which " + "does " + "work " + "\n    at the " + "rate " + "of 1 " + "joule "
        + "per second. " + "1 W = " + "1 J/s. " + "Other " + "units " + "include " + "kilowatt "
        + "(kW = " + "1000 " + "W) and " + "\n    horsepowe" + "r (1 " + "hp \U{2248} " + "746 W)."
    else if id == "Q14" then
        "There " + "are three " + "methods " + "of heat " + "transfer: " + "(1) Conduction"
        + " - heat " + "transfer " + "through " + "direct " + "\n    contact " + "between "
        + "molecules " + "in solids. " + "Example: " + "A metal " + "spoon " + "becomes " + "hot when "
        + "placed " + "in hot " + "tea. " + "\n    (2) Conve" + "ction " + "- heat " + "transfer "
        + "through " + "the actual " + "movement " + "of fluid " + "(liquid " + "or gas). "
        + "Example: " + "Water " + "\n    in a " + "pot heats " + "up as " + "hot water " + "rises "
        + "and cool " + "water " + "sinks, " + "creating " + "convection " + "currents. "
        + "\n    (3) Radia" + "tion " + "- heat " + "transfer " + "through " + "electromagneti"
        + "c waves " + "without " + "requiring " + "a medium. " + "Example: " + "\n    Heat " + "from "
        + "the Sun " + "reaches " + "Earth " + "through " + "radiation " + "across " + "empty "
        + "space."
    else // Q15
        "Fleming's " + "left-hand " + "rule " + "helps " + "determine " + "the direction "
        + "of force " + "on a " + "current-carryi" + "ng \n    conduc" + "tor in " + "a magnetic "
        + "field. " + "The rule " + "states: " + "Stretch " + "the thumb, " + "forefinger, "
        + "and middle " + "finger " + "\n    of your " + "left " + "hand " + "mutually "
        + "perpendicular " + "to each " + "other. " + "If the " + "forefinger " + "points " + "in the "
        + "direction " + "\n    of the " + "magnetic " + "field, " + "and the " + "middle " + "finger "
        + "points " + "in the " + "direction " + "of current, " + "then " + "the thumb "
        + "\n    points " + "in the " + "direction " + "of force " + "(motion). " + "This "
        + "principle " + "is used " + "in electric " + "motors, " + "where " + "a \n    current"
        + "-carrying " + "coil " + "in a " + "magnetic " + "field " + "experiences " + "force "
        + "and rotates, " + "converting " + "electrical " + "\n    energy " + "to mechanical "
        + "energy."
  }

  /** `REFERENCE_ANSWERS`. */
  const ReferenceAnswers: map<string, string> := map id | id in ReferenceIds :: AnswerText(id)

  /** The value stored under a key is the key's answer, which is non-empty. */
  lemma StoredAnswer(queryId: string)
    requires queryId in ReferenceAnswers
    ensures queryId in ReferenceIds
    ensures ReferenceAnswers[queryId] == AnswerText(queryId) && |ReferenceAnswers[queryId]| > 0
  {
  }

  /** `has_reference_answer`: the identifier is a key of the dictionary. */
  predicate HasReferenceAnswer(queryId: string): (present: bool)
    ensures present <==> queryId in ReferenceIds
  {
    queryId in ReferenceAnswers
  }

  /** `get_reference_answer`: `REFERENCE_ANSWERS.get(query_id, "")`. The stored answers
      are all non-empty, so the result is truthy exactly for the identifiers that have one. */
  function GetReferenceAnswer(queryId: string): (answer: string)
    ensures answer != "" <==> HasReferenceAnswer(queryId)
    ensures HasReferenceAnswer(queryId) ==> answer == AnswerText(queryId)
  {
    if queryId in ReferenceAnswers then
      StoredAnswer(queryId);
      ReferenceAnswers[queryId]
    else ""
  }

  /** The identifiers with a reference answer are exactly Q1 to Q15. */
  lemma HasReferenceAnswerIds(queryId: string)
    ensures HasReferenceAnswer(queryId) <==> queryId in QueryIds
  {
    assert ReferenceIds == QueryIds;
  }

  /** Every test query has a reference answer. */
  lemma EveryTestQueryHasReference(i: nat)
    requires i < |TestQueries|
    ensures HasReferenceAnswer(TestQueries[i].id)
  {
    TestQueryIds();
    assert TestQueries[i].id == Ids(TestQueries)[i];
    HasReferenceAnswerIds(TestQueries[i].id);
  }

  /** Evaluating a test query with advanced metrics passes its reference answer as
      `reference`, which is never empty, so the record gets all nine metrics. */
  lemma TestQueryRecordHasAllMetrics(i: nat, response: string, context: seq<string>,
                                     retrievedDocs: seq<Retrieval.Record>, scores: Report.AdvancedScores)
    requires i < |TestQueries|
    ensures var q := TestQueries[i];
      Report.SingleQueryRecord(q.query, response, context, retrievedDocs,
        Some(GetReferenceAnswer(q.id)), true, scores).Keys == Report.RecordKeys(true)
  {
    EveryTestQueryHasReference(i);
    var q := TestQueries[i];
    Report.SingleQueryRecordKeys(q.query, response, context, retrievedDocs,
      Some(GetReferenceAnswer(q.id)), true, scores);
  }
}
