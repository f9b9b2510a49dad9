/** The accession partition and WHERE clause of the BigQuery `get_study_experiment_run`
    tool. */
module BigQuery {
  import opened Chars

  /** The SRA hierarchy level an accession prefix names. */
  datatype Level = Study | Experiment | Run

  predicate HasLevel(acc: string, level: Level) {
    match level
    case Study => StartsWith(acc, "SRP") || StartsWith(acc, "PRJNA")
    case Experiment => StartsWith(acc, "SRX") || StartsWith(acc, "ERX")
    case Run => StartsWith(acc, "SRR") || StartsWith(acc, "ERR")
  }

  /** The prefixes of different levels exclude each other. */
  lemma LevelsDisjoint(acc: string, a: Level, b: Level)
    requires HasLevel(acc, a) && HasLevel(acc, b)
    ensures a == b
  {
    if StartsWith(acc, "PRJNA") {
      assert acc[..3] == "PRJ";
    }
  }

  /** `[x for x in accessions if ...]` for one level. */
  function OfLevel(accs: seq<string>, level: Level): (r: seq<string>)
    ensures forall x :: x in r <==> x in accs && HasLevel(x, level)
  {
    if accs == [] then []
    else (if HasLevel(accs[0], level) then [accs[0]] else []) + OfLevel(accs[1..], level)
  }

  /** The filter keeps the order: filtering a concatenation concatenates the filtered
      parts. */
  lemma {:induction false} OfLevelConcat(xs: seq<string>, ys: seq<string>, level: Level)
    ensures OfLevel(xs + ys, level) == OfLevel(xs, level) + OfLevel(ys, level)
  {
    if xs != [] {
      assert (xs + ys)[1..] == xs[1..] + ys;
      OfLevelConcat(xs[1..], ys, level);
    } else {
      assert xs + ys == ys;
    }
  }

  /** `f"{column} IN ({join_accs(accs)})"` when the list is non-empty. */
  function Clause(column: string, accs: seq<string>, joinAccs: seq<string> -> string): seq<string> {
    if |accs| > 0 then [column + " IN (" + joinAccs(accs) + ")"] else []
  }

  function Clauses(accs: seq<string>, joinAccs: seq<string> -> string): seq<string> {
    Clause("m.sra_study", OfLevel(accs, Study), joinAccs)
    + Clause("m.experiment", OfLevel(accs, Experiment), joinAccs)
    + Clause("m.acc", OfLevel(accs, Run), joinAccs)
  }

  datatype Where = NoValidAccessions | Where(condition: string)

  /** The WHERE condition, or "No valid accessions provided." when it is empty; the
      query itself runs on the client and is not part of this model. */
  function StudyExperimentRunWhere(accs: seq<string>, joinAccs: seq<string> -> string): Where {
    var condition := Join(Clauses(accs, joinAccs), " OR ");
    if condition == "" then NoValidAccessions else Where(condition)
  }

  /** There is a condition iff some accession has a recognised prefix, and it joins the
      clauses of the non-empty lists in the order study, experiment, run. */
  lemma WhereClauses(accs: seq<string>, joinAccs: seq<string> -> string)
    ensures StudyExperimentRunWhere(accs, joinAccs).NoValidAccessions? <==>
      forall x, l :: x in accs ==> !HasLevel(x, l)
    ensures StudyExperimentRunWhere(accs, joinAccs).Where? ==>
      StudyExperimentRunWhere(accs, joinAccs).condition == Join(Clauses(accs, joinAccs), " OR ")
    ensures |Clauses(accs, joinAccs)| ==
      (if OfLevel(accs, Study) != [] then 1 else 0) + (if OfLevel(accs, Experiment) != [] then 1 else 0)
      + (if OfLevel(accs, Run) != [] then 1 else 0)
  {
    var cs := Clauses(accs, joinAccs);
    if cs != [] {
      assert |cs[0]| > 0;
      JoinNonEmpty(cs, " OR ");
    }
    if forall l :: OfLevel(accs, l) == [] {
      forall x, l | x in accs ensures !HasLevel(x, l) {
        assert x !in OfLevel(accs, l);
      }
    } else {
      var l :| OfLevel(accs, l) != [];
      assert OfLevel(accs, l)[0] in OfLevel(accs, l);
    }
  }

  lemma JoinNonEmpty(parts: seq<string>, sep: string)
    requires parts != [] && parts[0] != ""
    ensures Join(parts, sep) != ""
  {
    if |parts| > 1 {
      assert Join(parts, sep)[0] == parts[0][0];
    }
  }
}
