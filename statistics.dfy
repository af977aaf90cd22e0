/** The statistic values of one team and the code table `get_stats` applies
    to the provider's list of `{"name": ..., "value": ...}` entries. */
module Statistics {
  import opened Wrappers
  import opened Documents

  /** The value of a `Statistic`: full-time goals, half-time goals, shots,
      shots on target, corners, fouls, yellow cards, red cards. */
  datatype Stats = Stats(ftg: int, htg: int, sh: int, sot: int, co: int, fo: int, yc: int, rc: int)

  /** `Statistic()` with every default. */
  const Zero := Stats(0, 0, 0, 0, 0, 0, 0, 0)

  datatype Field = Ftg | Htg | Sh | Sot | Co | Fo | Yc | Rc

  function StatOf(s: Stats, f: Field): int
  {
    match f
    case Ftg => s.ftg
    case Htg => s.htg
    case Sh => s.sh
    case Sot => s.sot
    case Co => s.co
    case Fo => s.fo
    case Yc => s.yc
    case Rc => s.rc
  }

  /** `s` with field `f` overwritten by `v`: that field reads `v` and no other changes. */
  function WithStat(s: Stats, f: Field, v: int): (t: Stats)
    ensures StatOf(t, f) == v
    ensures forall g :: g != f ==> StatOf(t, g) == StatOf(s, g)
  {
    match f
    case Ftg => s.(ftg := v)
    case Htg => s.(htg := v)
    case Sh => s.(sh := v)
    case Sot => s.(sot := v)
    case Co => s.(co := v)
    case Fo => s.(fo := v)
    case Yc => s.(yc := v)
    case Rc => s.(rc := v)
  }

  /** The provider code of each field the table fills; full-time goals have none. */
  function Code(f: Field): string
    requires f != Ftg
  {
    match f
    case Htg => "first_half_goals"
    case Sh => "total_scoring_att"
    case Sot => "ontarget_scoring_att"
    case Co => "total_corners_intobox"
    case Fo => "fk_foul_lost"
    case Yc => "total_yel_card"
    case Rc => "total_red_card"
  }

  /** The `if`/`elif` chain of `get_stats`: which field an entry name selects.
      The table is exactly the inverse of `Code`, and never selects `Ftg`. */
  function CodeField(name: string): (r: Option<Field>)
    ensures r.Some? ==> r.value != Ftg && name == Code(r.value)
    ensures forall f :: f != Ftg && name == Code(f) ==> r == Some(f)
  {
    if name == "first_half_goals" then Some(Htg)
    else if name == "total_scoring_att" then Some(Sh)
    else if name == "ontarget_scoring_att" then Some(Sot)
    else if name == "total_corners_intobox" then Some(Co)
    else if name == "fk_foul_lost" then Some(Fo)
    else if name == "total_yel_card" then Some(Yc)
    else if name == "total_red_card" then Some(Rc)
    else None
  }

  /** What one entry of the list does to the statistics. */
  datatype Update = Ignore | Overwrite(field: Field, value: int)

  /** One pass of the loop body: `stat["name"]` must exist; a name that is
      not one of the seven codes (or not a string at all, which compares
      unequal to every code) selects nothing, and `stat["value"]` is read
      only when the name selects a field. */
  function DecodeEntry(e: Json): (r: Result<Update, Error>)
    ensures r.Ok? <==>
      (e.Obj? && "name" in e.fields
       && (e.fields["name"].Str? && CodeField(e.fields["name"].s).Some? ==>
             "value" in e.fields && e.fields["value"].Num?))
    ensures r == Ok(Ignore) <==>
      (e.Obj? && "name" in e.fields
       && !(e.fields["name"].Str? && CodeField(e.fields["name"].s).Some?))
    ensures r.Ok? && r.value.Overwrite? ==>
      && r.value.field != Ftg
      && e.fields["name"] == Str(Code(r.value.field))
      && e.fields["value"] == Num(r.value.value)
  {
    var name :- Member(e, "name");
    if name.Str? && CodeField(name.s).Some? then
      var v :- IntMember(e, "value");
      Ok(Overwrite(CodeField(name.s).value, v))
    else
      Ok(Ignore)
  }

  /** Whether an entry reads and overwrites field `f`. */
  predicate Selects(e: Json, f: Field)
  {
    DecodeEntry(e).Ok? && DecodeEntry(e).value.Overwrite? && DecodeEntry(e).value.field == f
  }

  function Apply(s: Stats, u: Update): Stats
  {
    match u
    case Ignore => s
    case Overwrite(f, v) => WithStat(s, f, v)
  }

  /** The statistics after the loop over a list, and the error that stopped
      it if an entry could not be read. The fields are assigned in place, so
      the entries before a bad one have already taken effect. */
  datatype Applied = Applied(stats: Stats, failure: Option<Error>)

  /** The `for stat in ...["M"]` loop of `get_stats`, over the first `|es|`
      entries. Full-time goals are never assigned by it. */
  function Run(s: Stats, es: seq<Json>): (a: Applied)
    ensures a.stats.ftg == s.ftg
    decreases |es|
  {
    if es == [] then Applied(s, None)
    else
      var before := Run(s, es[..|es| - 1]);
      if before.failure.Some? then before
      else match DecodeEntry(es[|es| - 1])
        case Err(e) => Applied(before.stats, Some(e))
        case Ok(u) => Applied(Apply(before.stats, u), None)
  }

  /** Once an entry has failed, the entries after it are never looked at. */
  lemma {:induction false} FailureSticks(s: Stats, es: seq<Json>, n: nat)
    requires n <= |es| && Run(s, es[..n]).failure.Some?
    ensures Run(s, es) == Run(s, es[..n])
    decreases |es|
  {
    if n < |es| {
      var init := es[..|es| - 1];
      assert init[..n] == es[..n];
      FailureSticks(s, init, n);
    } else {
      assert es[..n] == es;
    }
  }

  /** The value of the last entry in `es` that selects `f`, or `d` if none does. */
  function LastOr(es: seq<Json>, f: Field, d: int): int
    decreases |es|
  {
    if es == [] then d
    else match DecodeEntry(es[|es| - 1])
      case Ok(Overwrite(g, v)) => if g == f then v else LastOr(es[..|es| - 1], f, d)
      case _ => LastOr(es[..|es| - 1], f, d)
  }

  /** The statistics a list leaves when every entry reads: each coded field
      holds its last value in the list, everything else what it held before. */
  function Overlay(s: Stats, es: seq<Json>): Stats
  {
    Stats(s.ftg, LastOr(es, Htg, s.htg), LastOr(es, Sh, s.sh), LastOr(es, Sot, s.sot),
      LastOr(es, Co, s.co), LastOr(es, Fo, s.fo), LastOr(es, Yc, s.yc), LastOr(es, Rc, s.rc))
  }

  lemma OverlayAt(s: Stats, es: seq<Json>, f: Field)
    requires f != Ftg
    ensures StatOf(Overlay(s, es), f) == LastOr(es, f, StatOf(s, f))
  {
  }

  /** The loop succeeds exactly when every entry can be read. */
  lemma {:induction false} RunSucceedsIff(s: Stats, es: seq<Json>)
    ensures Run(s, es).failure.None? <==> forall i :: 0 <= i < |es| ==> DecodeEntry(es[i]).Ok?
    decreases |es|
  {
    if es != [] {
      var init := es[..|es| - 1];
      RunSucceedsIff(s, init);
      assert forall i :: 0 <= i < |init| ==> init[i] == es[i];
    }
  }

  /** Whether the loop fails, and how, does not depend on the statistics it starts from. */
  lemma {:induction false} FailureIndependent(s: Stats, t: Stats, es: seq<Json>)
    ensures Run(s, es).failure == Run(t, es).failure
    decreases |es|
  {
    if es != [] {
      FailureIndependent(s, t, es[..|es| - 1]);
    }
  }

  /** A loop that reads every entry leaves the overlay: last occurrence wins,
      untouched fields keep their prior value. */
  lemma {:induction false} RunIsOverlay(s: Stats, es: seq<Json>)
    requires Run(s, es).failure.None?
    ensures Run(s, es).stats == Overlay(s, es)
    decreases |es|
  {
    if es != [] {
      var init := es[..|es| - 1];
      RunIsOverlay(s, init);
    }
  }

  /** For each code, the mapped field holds the value of the last entry
      carrying that code. */
  lemma {:induction false} LastOccurrenceWins(s: Stats, es: seq<Json>, j: nat, f: Field, v: int)
    requires Run(s, es).failure.None?
    requires j < |es| && DecodeEntry(es[j]) == Ok(Overwrite(f, v))
    requires forall k :: j < k < |es| ==> !Selects(es[k], f)
    ensures StatOf(Run(s, es).stats, f) == v
  {
    RunIsOverlay(s, es);
    LastOrAt(es, j, f, v, StatOf(s, f));
  }

  lemma {:induction false} LastOrAt(es: seq<Json>, j: nat, f: Field, v: int, d: int)
    requires j < |es| && DecodeEntry(es[j]) == Ok(Overwrite(f, v)) && f != Ftg
    requires forall k :: j < k < |es| ==> !Selects(es[k], f)
    ensures LastOr(es, f, d) == v
    decreases |es|
  {
    if j < |es| - 1 {
      var init := es[..|es| - 1];
      LastOrAt(init, j, f, v, d);
    }
  }

  /** A field that no entry selects keeps its prior value. */
  lemma {:induction false} UnselectedFieldKept(s: Stats, es: seq<Json>, f: Field)
    requires Run(s, es).failure.None?
    requires forall k :: 0 <= k < |es| ==> !Selects(es[k], f)
    ensures StatOf(Run(s, es).stats, f) == StatOf(s, f)
  {
    RunIsOverlay(s, es);
    if f != Ftg {
      LastOrNone(es, f, StatOf(s, f));
    }
  }

  lemma {:induction false} LastOrNone(es: seq<Json>, f: Field, d: int)
    requires forall k :: 0 <= k < |es| ==> !Selects(es[k], f)
    ensures LastOr(es, f, d) == d
    decreases |es|
  {
    if es != [] {
      LastOrNone(es[..|es| - 1], f, d);
    }
  }

  /** Applying the same list a second time changes nothing: the fields are
      overwritten, never accumulated. */
  lemma Idempotent(s: Stats, es: seq<Json>)
    requires Run(s, es).failure.None?
    ensures Run(Run(s, es).stats, es) == Run(s, es)
  {
    var t := Run(s, es).stats;
    FailureIndependent(s, t, es);
    RunIsOverlay(s, es);
    RunIsOverlay(t, es);
    forall f | f != Ftg ensures LastOr(es, f, LastOr(es, f, StatOf(s, f))) == LastOr(es, f, StatOf(s, f)) {
      LastOrTwice(es, f, StatOf(s, f));
    }
    OverlayAt(s, es, Htg);
    OverlayAt(s, es, Sh);
    OverlayAt(s, es, Sot);
    OverlayAt(s, es, Co);
    OverlayAt(s, es, Fo);
    OverlayAt(s, es, Yc);
    OverlayAt(s, es, Rc);
  }

  lemma {:induction false} LastOrTwice(es: seq<Json>, f: Field, d: int)
    ensures LastOr(es, f, LastOr(es, f, d)) == LastOr(es, f, d)
    decreases |es|
  {
    if es != [] {
      var init := es[..|es| - 1];
      match DecodeEntry(es[|es| - 1])
      case Ok(Overwrite(g, v)) =>
        if g != f {
          LastOrTwice(init, f, d);
        }
      case _ =>
        LastOrTwice(init, f, d);
    }
  }

  /** An entry whose name is not one of the codes can be removed from
      anywhere in the list without changing the outcome. */
  lemma {:induction false} IgnoredEntryRemovable(s: Stats, front: seq<Json>, e: Json, back: seq<Json>)
    requires DecodeEntry(e) == Ok(Ignore)
    ensures Run(s, front + [e] + back) == Run(s, front + back)
    decreases |back|
  {
    if back == [] {
      assert (front + [e] + back)[..|front|] == front;
      assert front + back == front;
    } else {
      var init := back[..|back| - 1];
      IgnoredEntryRemovable(s, front, e, init);
      assert (front + [e] + back)[..|front + [e] + back| - 1] == front + [e] + init;
      assert (front + back)[..|front + back| - 1] == front + init;
    }
  }

  /** The loop stops at the first entry that cannot be read: its error is
      reported and the entries before it have been applied. */
  lemma StopsAtFirstBadEntry(s: Stats, es: seq<Json>, j: nat)
    requires j < |es| && DecodeEntry(es[j]).Err?
    requires forall i :: 0 <= i < j ==> DecodeEntry(es[i]).Ok?
    ensures Run(s, es) == Applied(Run(s, es[..j]).stats, Some(DecodeEntry(es[j]).error))
  {
    var pre := es[..j];
    RunSucceedsIff(s, pre);
    assert es[..j + 1][..j] == pre;
    FailureSticks(s, es, j + 1);
  }
}
