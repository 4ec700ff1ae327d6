/**
 * The patient seeder: the seed mode with its canonical label, its display
 * form and its lenient parser, and the seeding run that either replaces
 * or extends the stored patients with five to ten random ones.
 */
module Patients {
  import opened Text
  import Hospitals

  /** How a seeding run treats the patients already stored. */
  datatype PatientSeedMode = Reset | Append

  /** A parse outcome: the mode, or a message for the user. */
  datatype Result<T> = Ok(value: T) | Err(error: string)

  /** The spellings accepted for each mode once the input is normalised. */
  const ResetAliases: set<string> := {"reset", "replace", "clear"}
  const AppendAliases: set<string> := {"append", "add", "keep"}

  /** The triage conditions a seeded patient may present with. */
  const TriageConditions: seq<string> := [
    "Emergência (Vermelho)",
    "Muito Urgente (Laranja)",
    "Urgente (Amarelo)",
    "Pouco Urgente (Verde)",
    "Não Urgente (Azul)"
  ]

  /** The box seeded patients are placed in: latitude and longitude, lower bound inclusive, upper exclusive. */
  const LatMin: real := 38.70
  const LatMax: real := 38.80
  const LonMin: real := -9.28
  const LonMax: real := -9.12

  // ---------------------------------------------------------------------
  // Label, display, parse

  /** The canonical name of a mode. */
  function Label(m: PatientSeedMode): (r: string)
    ensures r == "reset" || r == "append"
    ensures r == "reset" <==> m == Reset
    ensures r in (if m == Reset then ResetAliases else AppendAliases)
  {
    match m
    case Reset => "reset"
    case Append => "append"
  }

  /** What a parser compares: the input without surrounding white space, ASCII letters lowered. */
  function Normalize(s: string): (r: string)
    ensures |r| <= |s|
  {
    ToAsciiLowercase(Trim(s))
  }

  /** The message for an input whose normalised form `n` names no mode. */
  function Unsupported(n: string): string
  {
    "Unsupported patient seed mode '" + n + "'. Expected 'reset' or 'append'."
  }

  /** The arms of the parser's match, applied to an already normalised input `n`. */
  function ModeNamed(n: string): (r: Result<PatientSeedMode>)
    ensures r == Ok(Reset) <==> n in ResetAliases
    ensures r == Ok(Append) <==> n in AppendAliases
    ensures r.Err? <==> n !in ResetAliases + AppendAliases
    ensures r.Err? ==> r.error == Unsupported(n)
  {
    if n in ResetAliases then Ok(Reset)
    else if n in AppendAliases then Ok(Append)
    else Err(Unsupported(n))
  }

  /**
   * Parses a mode: after normalisation, any of the three reset spellings
   * gives Reset, any of the three append spellings gives Append, and
   * anything else is an error quoting the normalised input.
   */
  function FromStr(s: string): (r: Result<PatientSeedMode>)
    ensures r == Ok(Reset) <==> Normalize(s) in ResetAliases
    ensures r == Ok(Append) <==> Normalize(s) in AppendAliases
    ensures r.Err? ==> r.error == Unsupported(Normalize(s))
  {
    ModeNamed(Normalize(s))
  }

  /** A string without ASCII capitals is its own lowercase form. */
  lemma {:induction false} LowercaseKept(s: string)
    requires forall i :: 0 <= i < |s| ==> !('A' <= s[i] <= 'Z')
    ensures ToAsciiLowercase(s) == s
  {
  }

  /** A word of small ASCII letters is already normalised. */
  lemma LowercaseWordNormalized(w: string)
    requires w != [] && forall i :: 0 <= i < |w| ==> 'a' <= w[i] <= 'z'
    ensures Normalize(w) == w
  {
    assert [] + w + [] == w;
    TrimPadded([], w, []);
    LowercaseKept(w);
  }

  /** A label is already normalised. */
  lemma LabelNormalized(m: PatientSeedMode)
    ensures Normalize(Label(m)) == Label(m)
  {
    if m == Reset {
      LowercaseWordNormalized("reset");
    } else {
      LowercaseWordNormalized("append");
    }
  }

  /** Parsing a mode's label gives the mode back. */
  lemma FromStrLabel(m: PatientSeedMode)
    ensures FromStr(Label(m)) == Ok(m)
  {
    LabelNormalized(m);
  }

  /** The display form writes the label, so it parses back to the mode. */
  function Display(m: PatientSeedMode): (r: string)
    ensures r == Label(m) && FromStr(r) == Ok(m)
  {
    FromStrLabel(m);
    Label(m)
  }

  // ---------------------------------------------------------------------
  // Properties of the parser

  /** White space around an input that does not itself start or end with white space is ignored. */
  lemma FromStrIgnoresPadding(pre: string, s: string, post: string)
    requires AllWhitespace(pre) && AllWhitespace(post) && Trimmed(s)
    ensures FromStr(pre + s + post) == FromStr(s)
  {
    TrimPadded(pre, s, post);
    assert [] + s + [] == s;
    TrimPadded([], s, []);
  }

  /** Inputs that differ only in ASCII letter case parse alike. */
  lemma FromStrIgnoresCase(s: string, t: string)
    requires ToAsciiLowercase(s) == ToAsciiLowercase(t)
    ensures FromStr(s) == FromStr(t)
  {
    TrimLowered(s);
    TrimLowered(t);
  }

  /** Every accepted spelling begins and ends with a small ASCII letter. */
  lemma AliasEnds(l: string)
    requires l in ResetAliases + AppendAliases
    ensures |l| >= 3 && 'a' <= l[0] <= 'z' && 'a' <= l[|l| - 1] <= 'z'
  {
  }

  /** Every accepted spelling parses to its mode, in any ASCII case and with any surrounding white space. */
  lemma FromStrAliases(pre: string, s: string, post: string)
    requires AllWhitespace(pre) && AllWhitespace(post)
    requires ToAsciiLowercase(s) in ResetAliases + AppendAliases
    ensures FromStr(pre + s + post) == if ToAsciiLowercase(s) in ResetAliases then Ok(Reset) else Ok(Append)
  {
    AliasEnds(ToAsciiLowercase(s));
    assert AsciiLower(s[0]) == ToAsciiLowercase(s)[0];
    assert AsciiLower(s[|s| - 1]) == ToAsciiLowercase(s)[|s| - 1];
    TrimPadded(pre, s, post);
  }

  /** " RESET " names the reset mode. */
  lemma PaddedCapitalReset()
    ensures FromStr(" RESET ") == Ok(Reset)
  {
    assert " RESET " == " " + "RESET" + " ";
    assert ToAsciiLowercase("RESET") == "reset";
    FromStrAliases(" ", "RESET", " ");
  }

  /** The white space around "Wipe" is trimmed. */
  lemma WipeTrimmed()
    ensures Trim("  Wipe\n") == "Wipe"
  {
    assert "  Wipe\n" == "  " + "Wipe" + "\n";
    TrimPadded("  ", "Wipe", "\n");
  }

  /** Lowering "Wipe" gives "wipe". */
  lemma WipeLowered()
    ensures ToAsciiLowercase("Wipe") == "wipe"
  {
  }

  /** "wipe" is none of the six accepted spellings. */
  lemma WipeNamesNoMode()
    ensures "wipe" !in ResetAliases + AppendAliases
  {
  }

  /** "  Wipe\n" normalises to "wipe", which names no mode. */
  lemma WipeNormalized()
    ensures Normalize("  Wipe\n") == "wipe" && "wipe" !in ResetAliases + AppendAliases
  {
    WipeTrimmed();
    WipeLowered();
    WipeNamesNoMode();
  }

  /** An unknown mode is rejected with a message quoting its normalised form. */
  lemma UnknownModeRejected()
    ensures FromStr("  Wipe\n") == Err(Unsupported("wipe"))
  {
    WipeNormalized();
  }

  /** The patient conditions are the names of the hospitals' triage levels, in the same order. */
  lemma ConditionsAreTriageLevels()
    ensures |TriageConditions| == |Hospitals.LevelConfig|
    ensures forall i :: 0 <= i < |TriageConditions| ==> TriageConditions[i] == Hospitals.LevelConfig[i].name
  {
  }

  // ---------------------------------------------------------------------
  // The seeding run against an in-memory store

  /** A stored patient row. */
  datatype PatientRow = PatientRow(id: int, condition: string, latitude: real, longitude: real)

  /** What a seeding run reports: patients written by this run and patients stored afterwards. */
  datatype PatientSeedReport = PatientSeedReport(inserted: nat, total: nat)

  /** The patients table, with the id the next inserted patient receives. */
  class PatientStore {
    var patients: seq<PatientRow>
    var nextId: int

    constructor ()
      ensures patients == []
    {
      patients, nextId := [], 1;
    }

    method DeleteAll()
      modifies this
      ensures patients == [] && nextId == old(nextId)
    {
      patients := [];
    }

    /** Inserts a patient under a fresh id and returns the stored row. */
    method Insert(condition: string, latitude: real, longitude: real) returns (row: PatientRow)
      modifies this
      ensures row == PatientRow(old(nextId), condition, latitude, longitude)
      ensures patients == old(patients) + [row] && nextId == old(nextId) + 1
    {
      row := PatientRow(nextId, condition, latitude, longitude);
      patients := patients + [row];
      nextId := nextId + 1;
    }
  }

  /** `x` lies in the half-open range from `lo` to `hi`. */
  predicate Within(x: real, lo: real, hi: real)
  {
    lo <= x < hi
  }

  /** A row a seeding run may write: a listed triage condition, a position inside the box. */
  predicate Seeded(p: PatientRow)
  {
    p.condition in TriageConditions &&
    Within(p.latitude, LatMin, LatMax) && Within(p.longitude, LonMin, LonMax)
  }

  /**
   * One seeding run: in Reset mode the stored patients are deleted first,
   * in Append mode they are kept; then five to ten patients are inserted,
   * each with a triage condition drawn from the list and a position drawn
   * from the box. The report gives the number inserted and the number
   * stored afterwards.
   */
  method SeedPatients(db: PatientStore, mode: PatientSeedMode) returns (report: PatientSeedReport)
    modifies db
    ensures 5 <= report.inserted <= 10 && report.total == |db.patients|
    ensures mode == Reset ==> report.total == report.inserted
    ensures mode == Append ==>
      report.total == |old(db.patients)| + report.inserted &&
      db.patients[..|old(db.patients)|] == old(db.patients)
    ensures forall i :: report.total - report.inserted <= i < report.total ==> Seeded(db.patients[i])
  {
    if mode == Reset {
      db.DeleteAll();
    }
    ghost var kept := db.patients;
    assert Within(LatMin, LatMin, LatMax) && Within(LonMin, LonMin, LonMax);
    var patientCount: nat :| 5 <= patientCount <= 10;
    for i := 0 to patientCount
      invariant |db.patients| == |kept| + i && db.patients[..|kept|] == kept
      invariant forall j :: |kept| <= j < |db.patients| ==> Seeded(db.patients[j])
    {
      var conditionIdx :| 0 <= conditionIdx < |TriageConditions|;
      var latitude: real :| Within(latitude, LatMin, LatMax);
      var longitude: real :| Within(longitude, LonMin, LonMax);
      var row := db.Insert(TriageConditions[conditionIdx], latitude, longitude);
    }
    report := PatientSeedReport(patientCount, |db.patients|);
  }
}
