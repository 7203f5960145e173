/**
 * `stage2_merge_node`: projects the three Stage 2 results onto the twelve
 * keys of the forensic record the report stages read.
 */
module Stage2MergeNode {
  import opened Wrappers
  import opened Json
  import opened PipelineState

  const Prefix := "Stage 2 Merge failed: "

  /** The keys taken from each sub-record: four from 2A, five from 2B, three from 2C. */
  const KeysFrom2a := {"claim_construction_rows", "estoppel_matrix_rows", "construction_summary", "estoppel_summary"}
  const KeysFrom2b := {"technical_reps", "search_gap_analysis", "convergence_rows", "technical_summary", "search_summary"}
  const KeysFrom2c := {"event_forensics", "global_findings", "timeline_summary"}

  /** The keys whose lengths the completion log reads. */
  const LoggedKeys := ["claim_construction_rows", "estoppel_matrix_rows", "technical_reps", "convergence_rows", "event_forensics"]

  /** The value a missing key takes: `None` for `global_findings`, `""` for summaries, `[]` for row lists. */
  function DefaultFor(key: string): Json
  {
    if key == "global_findings" then JNull
    else if key in {"construction_summary", "estoppel_summary", "technical_summary", "search_summary", "timeline_summary"}
    then JStr("")
    else JArr([])
  }

  /** The three key groups are pairwise disjoint, so no sub-record shadows another. */
  lemma KeyGroupsDisjoint()
    ensures KeysFrom2a !! KeysFrom2b && KeysFrom2a !! KeysFrom2c && KeysFrom2b !! KeysFrom2c
  {
  }

  /** `x.get(k, default)` for each key of one group. */
  function Project(x: Record, keys: set<string>): (r: Record)
    ensures r.Keys == keys
    ensures forall k :: k in keys ==> r[k] == GetOr(x, k, DefaultFor(k))
  {
    map k | k in keys :: GetOr(x, k, DefaultFor(k))
  }

  /** The merged forensic record: exactly the twelve keys. */
  function Forensic(a: Record, b: Record, c: Record): (r: Record)
    ensures r.Keys == KeysFrom2a + KeysFrom2b + KeysFrom2c
  {
    Project(a, KeysFrom2a) + Project(b, KeysFrom2b) + Project(c, KeysFrom2c)
  }

  /** Each 2A key is copied verbatim from `stage2a`, or takes its default when missing there. */
  lemma CopiesFrom2a(a: Record, b: Record, c: Record)
    ensures forall k :: k in KeysFrom2a ==> Forensic(a, b, c)[k] == GetOr(a, k, DefaultFor(k))
  {
    KeyGroupsDisjoint();
  }

  /** Each 2B key is copied verbatim from `stage2b`, or takes its default when missing there. */
  lemma CopiesFrom2b(a: Record, b: Record, c: Record)
    ensures forall k :: k in KeysFrom2b ==> Forensic(a, b, c)[k] == GetOr(b, k, DefaultFor(k))
  {
    KeyGroupsDisjoint();
  }

  /** Each 2C key is copied verbatim from `stage2c`, or takes its default when missing there. */
  lemma CopiesFrom2c(a: Record, b: Record, c: Record)
    ensures forall k :: k in KeysFrom2c ==> Forensic(a, b, c)[k] == GetOr(c, k, DefaultFor(k))
  {
  }

  /** Two sub-records that agree on a key agree on `.get` of it. */
  predicate AgreeOn(x: Record, y: Record, keys: set<string>)
  {
    forall k :: k in keys ==> (k in x <==> k in y) && (k in x ==> x[k] == y[k])
  }

  /**
   * The merge reads nothing but its twelve keys: sub-records that agree on
   * their own keys give the same forensic record, whatever else they hold.
   */
  lemma ForensicReadsOnlyItsKeys(a1: Record, b1: Record, c1: Record, a2: Record, b2: Record, c2: Record)
    requires AgreeOn(a1, a2, KeysFrom2a) && AgreeOn(b1, b2, KeysFrom2b) && AgreeOn(c1, c2, KeysFrom2c)
    ensures Forensic(a1, b1, c1) == Forensic(a2, b2, c2)
  {
    ProjectReadsOnlyItsKeys(a1, a2, KeysFrom2a);
    ProjectReadsOnlyItsKeys(b1, b2, KeysFrom2b);
    ProjectReadsOnlyItsKeys(c1, c2, KeysFrom2c);
  }

  /** One group's projection reads only that group's keys. */
  lemma ProjectReadsOnlyItsKeys(x: Record, y: Record, keys: set<string>)
    requires AgreeOn(x, y, keys)
    ensures Project(x, keys) == Project(y, keys)
  {
    assert forall k :: k in keys ==> Project(x, keys)[k] == Project(y, keys)[k];
  }

  /** Empty sub-records give every key its default. */
  lemma EmptyForensic()
    ensures forall k :: k in Forensic(map[], map[], map[]) ==> Forensic(map[], map[], map[])[k] == DefaultFor(k)
  {
    CopiesFrom2a(map[], map[], map[]);
    CopiesFrom2b(map[], map[], map[]);
    CopiesFrom2c(map[], map[], map[]);
  }

  /**
   * The node: skipped after a failure; otherwise the forensic record of the
   * three sub-records (missing ones read as empty) is stored, and a
   * failure of the completion log sets status "failed".
   */
  function Stage2Merge(s: State): (r: State)
    ensures IsFailed(s) ==> r == s
    ensures !IsFailed(s) ==>
      var forensic := Forensic(s.stage2a.GetOr(map[]), s.stage2b.GetOr(map[]), s.stage2c.GetOr(map[]));
      r == s.(stage2Forensic := Some(forensic), status := r.status, error := r.error)
      && (LogLengths(forensic, LoggedKeys).None? ==> r.status == s.status && r.error == s.error)
      && (LogLengths(forensic, LoggedKeys).Some? ==> IsFailed(r) && r.error == Some(Prefix + LogLengths(forensic, LoggedKeys).value))
  {
    if IsFailed(s) then s
    else
      var forensic := Forensic(s.stage2a.GetOr(map[]), s.stage2b.GetOr(map[]), s.stage2c.GetOr(map[]));
      var s1 := s.(stage2Forensic := Some(forensic));
      match LogLengths(forensic, LoggedKeys)
      case None => s1
      case Some(e) => Fail(s1, Prefix, e)
  }
}
