/**
 * History reconstruction of a procurement request (DA, "demande d'achat"): from the
 * request's sparse stage timestamps, actors, comments and its current French `status`,
 * the ordered list of timeline events shown on the request page.
 *
 * Timestamps are integers; an absent, null or empty `*_at` field is `None`.
 */
module Timeline {
  import opened Optional
  import opened Text

  /** The actor record joined onto a stage (`*_by_profile`). */
  datatype Profile = Profile(firstName: Option<string>, lastName: Option<string>)

  /** The request record as the timeline reads it. */
  datatype DA = DA(
    createdAt: int,
    createdBy: Option<Profile>,
    submittedAt: Option<int>,
    analyzedAt: Option<int>,
    analyzedBy: Option<Profile>,
    pricedAt: Option<int>,
    pricedBy: Option<Profile>,
    submittedValidationAt: Option<int>,
    submittedValidationBy: Option<Profile>,
    validatedFinanceAt: Option<int>,
    validatedFinanceBy: Option<Profile>,
    comptabiliseAt: Option<int>,
    comptabiliseBy: Option<Profile>,
    rejectedAt: Option<int>,
    rejectedBy: Option<Profile>,
    revisionRequestedAt: Option<int>,
    revisionRequestedBy: Option<Profile>,
    status: string,
    rejectionReason: Option<string>,
    revisionComment: Option<string>,
    financeDecisionComment: Option<string>,
    comptabiliteRejectionReason: Option<string>)

  /** The status values the timeline dispatches on. */
  const EnRevisionAchats := "en_revision_achats"
  const ValideeFinance := "validee_finance"
  const RefuseeFinance := "refusee_finance"
  const Payee := "payee"
  const Rejetee := "rejetee"
  const RejeteeComptabilite := "rejetee_comptabilite"

  /** The event ids, one per stage the timeline knows. */
  datatype EventId =
    | Created | Submitted | Analyzed | Priced | SubmittedValidation
    | Revision | ValidatedFinance | RefusedFinance | Rejected | Paid | RejectedComptabilite

  datatype EventStatus = Completed | Current | Pending

  datatype Event = Event(
    id: EventId,
    action: string,
    date: int,
    actorName: string,
    description: Option<string>,
    status: EventStatus)

  /** The order in which the stages are checked and their events pushed. */
  const StageOrder: seq<EventId> := [
    Created, Submitted, Analyzed, Priced, SubmittedValidation,
    Revision, ValidatedFinance, RefusedFinance, Rejected, Paid, RejectedComptabilite]

  /**
   * The name shown for a stage's actor: "Système" when there is no profile, otherwise
   * first and last name joined by a space and trimmed, or "Utilisateur" when that is blank.
   * The name is never empty and never starts or ends with white space.
   */
  function FormatActorName(profile: Option<Profile>): (r: string)
    ensures r != [] && !IsSpace(r[0]) && !IsSpace(r[|r| - 1])
    ensures profile.None? ==> r == "Système"
    ensures profile.Some? && !AllSpace(FullName(profile.value)) ==> r == Trim(FullName(profile.value))
    ensures profile.Some? && AllSpace(FullName(profile.value)) ==> r == "Utilisateur"
  {
    match profile
    case None => "Système"
    case Some(p) =>
      var name := Trim(FullName(p));
      if name == [] then "Utilisateur" else name
  }

  /** `${first_name || ''} ${last_name || ''}` */
  function FullName(p: Profile): string {
    p.firstName.GetOr("") + " " + p.lastName.GetOr("")
  }

  /** `comment || undefined`: a null or empty comment gives no description. */
  function Described(comment: Option<string>): (r: Option<string>)
    ensures r.Some? ==> r.value != [] && comment == r
    ensures comment.Some? && comment.value != [] ==> r == comment
  {
    if comment.Some? && comment.value != [] then comment else None
  }

  /** The event that stage `id` contributes to the timeline of `da`, if any. */
  function StageEvent(da: DA, id: EventId): (r: Option<Event>)
    ensures r.Some? ==> r.value.id == id
  {
    match id
    case Created =>
      Some(Event(Created, "Création de la DA", da.createdAt,
                 FormatActorName(da.createdBy), None, Completed))
    case Submitted =>
      if da.submittedAt.None? then None
      else Some(Event(Submitted, "Soumise aux Achats", da.submittedAt.value,
                      FormatActorName(da.createdBy), None, Completed))
    case Analyzed =>
      if da.analyzedAt.None? then None
      else Some(Event(Analyzed, "Prise en charge Achats", da.analyzedAt.value,
                      FormatActorName(da.analyzedBy), None, Completed))
    case Priced =>
      if da.pricedAt.None? then None
      else Some(Event(Priced, "Chiffrage effectué", da.pricedAt.value,
                      FormatActorName(da.pricedBy), None, Completed))
    case SubmittedValidation =>
      if da.submittedValidationAt.None? then None
      else Some(Event(SubmittedValidation, "Soumise à validation DAF/DG", da.submittedValidationAt.value,
                      FormatActorName(da.submittedValidationBy), None, Completed))
    case Revision =>
      if da.revisionRequestedAt.None? || da.status != EnRevisionAchats then None
      else Some(Event(Revision, "Révision demandée", da.revisionRequestedAt.value,
                      FormatActorName(da.revisionRequestedBy), Described(da.revisionComment), Current))
    case ValidatedFinance =>
      if da.validatedFinanceAt.None? || da.status !in [ValideeFinance, Payee, RejeteeComptabilite] then None
      else Some(Event(ValidatedFinance, "Validée financièrement", da.validatedFinanceAt.value,
                      FormatActorName(da.validatedFinanceBy), Described(da.financeDecisionComment), Completed))
    case RefusedFinance =>
      if da.validatedFinanceAt.None? || da.status != RefuseeFinance then None
      else Some(Event(RefusedFinance, "Refusée par DAF/DG", da.validatedFinanceAt.value,
                      FormatActorName(da.validatedFinanceBy), Described(da.financeDecisionComment), Current))
    case Rejected =>
      if da.rejectedAt.None? || da.status != Rejetee then None
      else Some(Event(Rejected, "Rejetée par les Achats", da.rejectedAt.value,
                      FormatActorName(da.rejectedBy), Described(da.rejectionReason), Current))
    case Paid =>
      if da.comptabiliseAt.None? || da.status != Payee then None
      else Some(Event(Paid, "Paiement enregistré", da.comptabiliseAt.value,
                      FormatActorName(da.comptabiliseBy), None, Completed))
    case RejectedComptabilite =>
      if da.comptabiliseAt.None? || da.status != RejeteeComptabilite then None
      else Some(Event(RejectedComptabilite, "Rejetée par la Comptabilité", da.comptabiliseAt.value,
                      FormatActorName(da.comptabiliseBy), Described(da.comptabiliteRejectionReason), Current))
  }

  /** What one `if (...) events.push(...)` step adds. */
  function Piece(da: DA, id: EventId): seq<Event> {
    match StageEvent(da, id)
    case Some(e) => [e]
    case None => []
  }

  /** The events pushed while checking the stages `ids` in turn. */
  function Collect(da: DA, ids: seq<EventId>): seq<Event> {
    if ids == [] then [] else Piece(da, ids[0]) + Collect(da, ids[1..])
  }

  /** The `events` array before it is sorted. */
  function Emitted(da: DA): seq<Event> {
    Collect(da, StageOrder)
  }

  /** The events after `events.sort(...)` by ascending date. */
  function Timeline(da: DA): seq<Event> {
    SortByDate(Emitted(da))
  }

  /** The component's result: the sorted events, or `null` when there are none. */
  function DATimeline(da: DA): (r: Option<seq<Event>>)
    ensures r.Some? && r.value == Timeline(da) && r.value != []
  {
    TimelineLength(da);
    var events := Timeline(da);
    if |events| == 0 then None else Some(events)
  }

  // ---------------------------------------------------------------------------
  // The sort. `Array.prototype.sort` is stable; with the comparator
  // `date(a) - date(b)` it orders by ascending date and keeps equal dates in
  // push order. SortByDate is that stable sort, written as an insertion sort.

  /** Places `x` before the first element whose date is not earlier than its own. */
  function InsertByDate(x: Event, s: seq<Event>): (r: seq<Event>)
    ensures |r| == |s| + 1
  {
    if s == [] then [x]
    else if x.date <= s[0].date then [x] + s
    else [s[0]] + InsertByDate(x, s[1..])
  }

  function SortByDate(s: seq<Event>): (r: seq<Event>)
    ensures |r| == |s|
  {
    if s == [] then [] else InsertByDate(s[0], SortByDate(s[1..]))
  }

  predicate SortedByDate(s: seq<Event>) {
    forall i, j :: 0 <= i < j < |s| ==> s[i].date <= s[j].date
  }

  /** The events of `s` that carry date `d`, in their order in `s`. */
  function WithDate(s: seq<Event>, d: int): seq<Event> {
    if s == [] then []
    else (if s[0].date == d then [s[0]] else []) + WithDate(s[1..], d)
  }

  lemma {:induction false} InsertSorted(x: Event, s: seq<Event>)
    requires SortedByDate(s)
    ensures SortedByDate(InsertByDate(x, s))
  {
    if s != [] && x.date > s[0].date {
      InsertSorted(x, s[1..]);
      var r := InsertByDate(x, s);
      var t := InsertByDate(x, s[1..]);
      assert r == [s[0]] + t;
      forall k | 0 <= k < |t| ensures s[0].date <= t[k].date {
        InsertMembers(x, s[1..]);
        assert t[k] in t;
      }
    }
  }

  lemma {:induction false} InsertMembers(x: Event, s: seq<Event>)
    ensures multiset(InsertByDate(x, s)) == multiset(s) + multiset{x}
    ensures forall e :: e in InsertByDate(x, s) <==> e == x || e in s
  {
    if s != [] && x.date > s[0].date {
      InsertMembers(x, s[1..]);
      assert s == [s[0]] + s[1..];
    }
  }

  lemma WithDateCons(e: Event, t: seq<Event>, d: int)
    ensures WithDate([e] + t, d) == (if e.date == d then [e] else []) + WithDate(t, d)
  {
    assert ([e] + t)[1..] == t;
  }

  lemma {:induction false} InsertWithDate(x: Event, s: seq<Event>, d: int)
    ensures WithDate(InsertByDate(x, s), d) == (if x.date == d then [x] else []) + WithDate(s, d)
  {
    if s == [] {
      WithDateCons(x, [], d);
    } else if x.date <= s[0].date {
      WithDateCons(x, s, d);
    } else {
      var t := InsertByDate(x, s[1..]);
      InsertWithDate(x, s[1..], d);
      WithDateCons(s[0], t, d);
      assert s == [s[0]] + s[1..];
      WithDateCons(s[0], s[1..], d);
      var head := if s[0].date == d then [s[0]] else [];
      var mine := if x.date == d then [x] else [];
      // the two events cannot both have date d, since x comes strictly later
      assert head == [] || mine == [];
      assert head + (mine + WithDate(s[1..], d)) == mine + (head + WithDate(s[1..], d));
    }
  }

  /** The sort returns its input sorted by ascending date. */
  lemma {:induction false} SortSorted(s: seq<Event>)
    ensures SortedByDate(SortByDate(s))
  {
    if s != [] {
      SortSorted(s[1..]);
      InsertSorted(s[0], SortByDate(s[1..]));
    }
  }

  /** The sort returns a permutation of its input. */
  lemma {:induction false} SortPermutes(s: seq<Event>)
    ensures multiset(SortByDate(s)) == multiset(s)
    ensures forall e :: e in SortByDate(s) <==> e in s
  {
    if s != [] {
      SortPermutes(s[1..]);
      InsertMembers(s[0], SortByDate(s[1..]));
      assert s == [s[0]] + s[1..];
    }
  }

  /** The sort is stable: events with the same date keep their relative order. */
  lemma {:induction false} SortStable(s: seq<Event>, d: int)
    ensures WithDate(SortByDate(s), d) == WithDate(s, d)
  {
    if s != [] {
      SortStable(s[1..], d);
      InsertWithDate(s[0], SortByDate(s[1..]), d);
    }
  }

  lemma {:induction false} WithDateEmpty(s: seq<Event>, d: int)
    ensures WithDate(s, d) == [] <==> forall k :: 0 <= k < |s| ==> s[k].date != d
  {
    if s != [] {
      WithDateEmpty(s[1..], d);
      assert forall k :: 1 <= k < |s| ==> s[k] == s[1..][k - 1];
    }
  }

  /**
   * Stability pins the result down: any date-sorted sequence that keeps the per-date
   * order of `s` is SortByDate(s). So SortByDate is the result of any stable sort with
   * the source's comparator, not just of this insertion sort.
   */
  lemma SortUnique(s: seq<Event>, r: seq<Event>)
    requires SortedByDate(r)
    requires forall d :: WithDate(r, d) == WithDate(s, d)
    ensures r == SortByDate(s)
  {
    SortSorted(s);
    forall d ensures WithDate(r, d) == WithDate(SortByDate(s), d) {
      SortStable(s, d);
    }
    SortedEqual(r, SortByDate(s));
  }

  lemma {:induction false} SortedEqual(a: seq<Event>, b: seq<Event>)
    requires SortedByDate(a) && SortedByDate(b)
    requires forall d :: WithDate(a, d) == WithDate(b, d)
    ensures a == b
    decreases |a|
  {
    if a == [] || b == [] {
      WithDateEmpty(a, if b == [] then 0 else b[0].date);
      WithDateEmpty(b, if b == [] then 0 else b[0].date);
      WithDateEmpty(a, if a == [] then 0 else a[0].date);
      WithDateEmpty(b, if a == [] then 0 else a[0].date);
      assert a == [] && b == [];
    } else {
      var m := a[0].date;
      assert b[0].date == m by {
        WithDateEmpty(a, b[0].date);
        WithDateEmpty(b, b[0].date);
        WithDateEmpty(a, m);
        WithDateEmpty(b, m);
      }
      assert a[0] == b[0] by {
        assert WithDate(a, m)[0] == a[0];
        assert WithDate(b, m)[0] == b[0];
      }
      forall d ensures WithDate(a[1..], d) == WithDate(b[1..], d) {
        var p: seq<Event> := if m == d then [a[0]] else [];
        assert WithDate(a, d) == p + WithDate(a[1..], d);
        assert WithDate(b, d) == p + WithDate(b[1..], d);
        assert WithDate(a[1..], d) == (p + WithDate(a[1..], d))[|p|..];
        assert WithDate(b[1..], d) == (p + WithDate(b[1..], d))[|p|..];
      }
      SortedEqual(a[1..], b[1..]);
      assert a == [a[0]] + a[1..] && b == [b[0]] + b[1..];
    }
  }

  // ---------------------------------------------------------------------------
  // What the pushes produce.

  predicate DistinctIds(s: seq<Event>) {
    forall i, j :: 0 <= i < j < |s| ==> s[i].id != s[j].id
  }

  lemma {:induction false} CollectMembers(da: DA, ids: seq<EventId>)
    ensures forall e :: e in Collect(da, ids) <==> e.id in ids && StageEvent(da, e.id) == Some(e)
  {
    if ids != [] {
      CollectMembers(da, ids[1..]);
      assert forall x :: x in ids <==> x == ids[0] || x in ids[1..];
    }
  }

  lemma {:induction false} CollectDistinct(da: DA, ids: seq<EventId>)
    requires forall i, j :: 0 <= i < j < |ids| ==> ids[i] != ids[j]
    ensures DistinctIds(Collect(da, ids))
  {
    if ids != [] {
      CollectDistinct(da, ids[1..]);
      CollectMembers(da, ids[1..]);
      PieceIds(da, ids[0]);
      assert ids[0] !in ids[1..] by {
        forall k | 0 <= k < |ids| - 1 ensures ids[1..][k] != ids[0] {
          assert ids[1..][k] == ids[k + 1];
        }
      }
      AppendKeepsDistinct(Piece(da, ids[0]), Collect(da, ids[1..]));
    }
  }

  lemma AppendKeepsDistinct(p: seq<Event>, c: seq<Event>)
    requires |p| <= 1 && DistinctIds(c)
    requires forall x, y :: x in p && y in c ==> x.id != y.id
    ensures DistinctIds(p + c)
  {
    forall i, j | 0 <= i < j < |p + c| ensures (p + c)[i].id != (p + c)[j].id {
      if i < |p| {
        assert (p + c)[i] == p[i] && p[i] in p;
        assert (p + c)[j] == c[j - |p|] && c[j - |p|] in c;
      } else {
        assert (p + c)[i] == c[i - |p|] && (p + c)[j] == c[j - |p|];
      }
    }
  }

  lemma PieceIds(da: DA, id: EventId)
    ensures |Piece(da, id)| <= 1
    ensures forall e :: e in Piece(da, id) ==> e.id == id
  {
  }

  lemma {:induction false} CollectAppend(da: DA, a: seq<EventId>, b: seq<EventId>)
    ensures Collect(da, a + b) == Collect(da, a) + Collect(da, b)
  {
    if a == [] {
      assert a + b == b;
    } else {
      assert (a + b)[1..] == a[1..] + b;
      CollectAppend(da, a[1..], b);
    }
  }

  lemma {:induction false} CollectLength(da: DA, ids: seq<EventId>)
    ensures |Collect(da, ids)| <= |ids|
  {
    if ids != [] {
      CollectLength(da, ids[1..]);
    }
  }

  lemma CollectCons(da: DA, x: EventId, rest: seq<EventId>)
    ensures Collect(da, [x] + rest) == Piece(da, x) + Collect(da, rest)
  {
    assert ([x] + rest)[1..] == rest;
  }

  /** Of the six status-dependent stages, at most two produce an event. */
  lemma StatusStagesAtMostTwo(da: DA)
    ensures |Collect(da, StageOrder[5..])| <= 2
  {
    var t5 := [RejectedComptabilite];
    var t4 := [Paid] + t5;
    var t3 := [Rejected] + t4;
    var t2 := [RefusedFinance] + t3;
    var t1 := [ValidatedFinance] + t2;
    var t0 := [Revision] + t1;
    assert StageOrder[5..] == t0;
    CollectCons(da, RejectedComptabilite, []);
    CollectCons(da, Paid, t5);
    CollectCons(da, Rejected, t4);
    CollectCons(da, RefusedFinance, t3);
    CollectCons(da, ValidatedFinance, t2);
    CollectCons(da, Revision, t1);
    PieceSize(da, Revision);
    PieceSize(da, ValidatedFinance);
    PieceSize(da, RefusedFinance);
    PieceSize(da, Rejected);
    PieceSize(da, Paid);
    PieceSize(da, RejectedComptabilite);
    StatusGates(da);
    AtMostTwoOfSix(da.status,
      StageEvent(da, Revision).Some?, StageEvent(da, ValidatedFinance).Some?,
      StageEvent(da, RefusedFinance).Some?, StageEvent(da, Rejected).Some?,
      StageEvent(da, Paid).Some?, StageEvent(da, RejectedComptabilite).Some?);
  }

  lemma PieceSize(da: DA, id: EventId)
    ensures |Piece(da, id)| == if StageEvent(da, id).Some? then 1 else 0
  {
  }

  /** Each status-dependent stage produces an event only under its own status values. */
  lemma StatusGates(da: DA)
    ensures StageEvent(da, Revision).Some? ==> da.status == EnRevisionAchats
    ensures StageEvent(da, ValidatedFinance).Some? ==> da.status in [ValideeFinance, Payee, RejeteeComptabilite]
    ensures StageEvent(da, RefusedFinance).Some? ==> da.status == RefuseeFinance
    ensures StageEvent(da, Rejected).Some? ==> da.status == Rejetee
    ensures StageEvent(da, Paid).Some? ==> da.status == Payee
    ensures StageEvent(da, RejectedComptabilite).Some? ==> da.status == RejeteeComptabilite
  {
  }

  lemma AtMostTwoOfSix(status: string, rev: bool, vf: bool, rf: bool, rj: bool, pd: bool, rc: bool)
    requires rev ==> status == EnRevisionAchats
    requires vf ==> status in [ValideeFinance, Payee, RejeteeComptabilite]
    requires rf ==> status == RefuseeFinance
    requires rj ==> status == Rejetee
    requires pd ==> status == Payee
    requires rc ==> status == RejeteeComptabilite
    ensures (if rev then 1 else 0) + (if vf then 1 else 0) + (if rf then 1 else 0)
            + (if rj then 1 else 0) + (if pd then 1 else 0) + (if rc then 1 else 0) <= 2
  {
    assert |EnRevisionAchats| == 18 && |ValideeFinance| == 15 && |RefuseeFinance| == 15;
    assert |Payee| == 5 && |Rejetee| == 7 && |RejeteeComptabilite| == 20;
    assert ValideeFinance[0] != RefuseeFinance[0];
  }

  /** Every request has between one and seven timeline events. */
  lemma TimelineLength(da: DA)
    ensures 1 <= |Timeline(da)| <= 7
  {
    assert StageOrder == StageOrder[..5] + StageOrder[5..];
    CollectAppend(da, StageOrder[..5], StageOrder[5..]);
    CollectLength(da, StageOrder[..5]);
    StatusStagesAtMostTwo(da);
    assert Collect(da, StageOrder)[0] == Event(Created, "Création de la DA", da.createdAt,
                                               FormatActorName(da.createdBy), None, Completed);
  }

  /**
   * The timeline holds exactly the events the stages produce, each once: an event is
   * in it iff its own stage produces it, and no two events share an id.
   */
  lemma TimelineMembers(da: DA)
    ensures forall e :: e in Timeline(da) <==> StageEvent(da, e.id) == Some(e)
    ensures DistinctIds(Timeline(da))
  {
    CollectMembers(da, StageOrder);
    SortPermutes(Emitted(da));
    forall id: EventId ensures id in StageOrder {
      EveryStageListed(id);
    }
    StageOrderDistinct();
    CollectDistinct(da, StageOrder);
    SortKeepsDistinct(Emitted(da));
  }

  lemma EveryStageListed(id: EventId)
    ensures id in StageOrder
  {
  }

  lemma StageOrderDistinct()
    ensures forall i, j :: 0 <= i < j < |StageOrder| ==> StageOrder[i] != StageOrder[j]
  {
  }

  lemma {:induction false} SortKeepsDistinct(s: seq<Event>)
    requires DistinctIds(s)
    ensures DistinctIds(SortByDate(s))
  {
    if s != [] {
      SortKeepsDistinct(s[1..]);
      SortPermutes(s[1..]);
      assert forall k :: 1 <= k < |s| ==> s[k].id != s[0].id && s[k] == s[1..][k - 1];
      InsertKeepsDistinct(s[0], SortByDate(s[1..]));
    }
  }

  lemma {:induction false} InsertKeepsDistinct(x: Event, s: seq<Event>)
    requires DistinctIds(s)
    requires forall e :: e in s ==> e.id != x.id
    ensures DistinctIds(InsertByDate(x, s))
  {
    if s == [] {
    } else if x.date <= s[0].date {
      AppendKeepsDistinct([x], s);
    } else {
      assert forall k :: 1 <= k < |s| ==> s[1..][k - 1] == s[k];
      InsertKeepsDistinct(x, s[1..]);
      InsertMembers(x, s[1..]);
      DistinctHead(s);
      AppendKeepsDistinct([s[0]], InsertByDate(x, s[1..]));
    }
  }

  lemma DistinctHead(s: seq<Event>)
    requires s != [] && DistinctIds(s)
    ensures forall e :: e in s[1..] ==> e.id != s[0].id
  {
    forall e | e in s[1..] ensures e.id != s[0].id {
      var k :| 0 <= k < |s| - 1 && s[1..][k] == e;
      assert s[k + 1] == e;
    }
  }

  // ---------------------------------------------------------------------------
  // Properties of the reconstructed history.

  predicate HasEvent(s: seq<Event>, id: EventId) {
    exists e :: e in s && e.id == id
  }

  /** The creation event is always there, completed, dated at creation. */
  lemma CreationAlwaysPresent(da: DA)
    ensures Event(Created, "Création de la DA", da.createdAt, FormatActorName(da.createdBy), None, Completed)
            in Timeline(da)
  {
    TimelineMembers(da);
  }

  /** A stage is in the timeline exactly when it produces an event. */
  lemma StageAppears(da: DA, id: EventId)
    ensures HasEvent(Timeline(da), id) <==> StageEvent(da, id).Some?
    ensures StageEvent(da, id).Some? ==> StageEvent(da, id).value in Timeline(da)
  {
    TimelineMembers(da);
    if StageEvent(da, id).Some? {
      assert StageEvent(da, id).value in Timeline(da);
    }
  }

  /** What every stage's event carries, stated for one stage at a time. */
  lemma StageFacts(da: DA, id: EventId)
    requires StageEvent(da, id).Some?
    ensures StageEvent(da, id).value.status != Pending
    ensures StageEvent(da, id).value.status == Current ==> CurrentUnder(id, da.status)
    ensures StageEvent(da, id).value.actorName != []
    ensures StageEvent(da, id).value.description == ExpectedDescription(da, id)
    ensures id in [Created, Submitted, Analyzed, Priced, SubmittedValidation]
            ==> StageEvent(da, id).value.status == Completed
  {
  }

  /** A stage's event is current exactly when the stage is one of the blocking outcomes. */
  lemma StageCurrent(da: DA, id: EventId)
    requires StageEvent(da, id).Some?
    ensures StageEvent(da, id).value.status == Current <==> id in BlockingStages
  {
    match id
    case Revision =>
    case RefusedFinance =>
    case Rejected =>
    case RejectedComptabilite =>
    case _ =>
  }

  /**
   * The four process stages appear exactly when their timestamp is set, completed; the
   * submission is dated at `submitted_at` and attributed to the request's creator (the dates
   * and actors of every stage are stated by `DatesAndActors`).
   */
  lemma ProcessStages(da: DA)
    ensures HasEvent(Timeline(da), Submitted) <==> da.submittedAt.Some?
    ensures HasEvent(Timeline(da), Analyzed) <==> da.analyzedAt.Some?
    ensures HasEvent(Timeline(da), Priced) <==> da.pricedAt.Some?
    ensures HasEvent(Timeline(da), SubmittedValidation) <==> da.submittedValidationAt.Some?
    ensures forall e :: e in Timeline(da) && e.id in [Created, Submitted, Analyzed, Priced, SubmittedValidation]
                        ==> e.status == Completed
    ensures forall e :: e in Timeline(da) && e.id == Submitted
                        ==> e.date == da.submittedAt.value && e.actorName == FormatActorName(da.createdBy)
  {
    TimelineMembers(da);
    forall e | e in Timeline(da) ensures e.id in [Created, Submitted, Analyzed, Priced, SubmittedValidation]
                                         ==> e.status == Completed {
      StageFacts(da, e.id);
    }
    StageAppears(da, Submitted);
    StageAppears(da, Analyzed);
    StageAppears(da, Priced);
    StageAppears(da, SubmittedValidation);
  }

  /**
   * The revision request appears exactly when it is dated and the request is back with
   * purchasing (`en_revision_achats`), as the current event at that date.
   */
  lemma RevisionStage(da: DA)
    ensures HasEvent(Timeline(da), Revision)
            <==> da.revisionRequestedAt.Some? && da.status == EnRevisionAchats
    ensures forall e :: e in Timeline(da) && e.id == Revision
                        ==> e.date == da.revisionRequestedAt.value && e.status == Current
  {
    TimelineMembers(da);
    StageAppears(da, Revision);
  }

  /**
   * The purchasing rejection appears exactly when it is dated and the request is `rejetee`,
   * as the current event at that date.
   */
  lemma RejectedStage(da: DA)
    ensures HasEvent(Timeline(da), Rejected) <==> da.rejectedAt.Some? && da.status == Rejetee
    ensures forall e :: e in Timeline(da) && e.id == Rejected
                        ==> e.date == da.rejectedAt.value && e.status == Current
  {
    TimelineMembers(da);
    StageAppears(da, Rejected);
  }

  /**
   * The finance slot `validated_finance_at` reads as an approval for the statuses that
   * follow one and as a refusal under `refusee_finance`, never as both.
   */
  lemma FinanceSlot(da: DA)
    ensures HasEvent(Timeline(da), ValidatedFinance)
            <==> da.validatedFinanceAt.Some? && da.status in [ValideeFinance, Payee, RejeteeComptabilite]
    ensures HasEvent(Timeline(da), RefusedFinance)
            <==> da.validatedFinanceAt.Some? && da.status == RefuseeFinance
    ensures !(HasEvent(Timeline(da), ValidatedFinance) && HasEvent(Timeline(da), RefusedFinance))
  {
    StageAppears(da, ValidatedFinance);
    StageAppears(da, RefusedFinance);
  }

  /**
   * The accounting slot `comptabilise_at` reads as a payment only under `payee` and as an
   * accounting rejection only under `rejetee_comptabilite`, never as both.
   */
  lemma AccountingSlot(da: DA)
    ensures HasEvent(Timeline(da), Paid) <==> da.comptabiliseAt.Some? && da.status == Payee
    ensures HasEvent(Timeline(da), RejectedComptabilite)
            <==> da.comptabiliseAt.Some? && da.status == RejeteeComptabilite
    ensures !(HasEvent(Timeline(da), Paid) && HasEvent(Timeline(da), RejectedComptabilite))
  {
    StageAppears(da, Paid);
    StageAppears(da, RejectedComptabilite);
  }

  /** The stages whose event, once shown, is the current one: the blocking outcomes. */
  const BlockingStages: seq<EventId> := [Revision, RefusedFinance, Rejected, RejectedComptabilite]

  /** The status that makes event `id` the current one, if it can be current. */
  predicate CurrentUnder(id: EventId, status: string) {
    || (id == Revision && status == EnRevisionAchats)
    || (id == RefusedFinance && status == RefuseeFinance)
    || (id == Rejected && status == Rejetee)
    || (id == RejectedComptabilite && status == RejeteeComptabilite)
  }

  /**
   * No event is pending; the revision, refusal and two rejection events are current whenever
   * they are shown, and every other event is completed; an event is current only when its
   * stage is the blocking outcome named by the request's status; so at most one is current.
   */
  lemma CurrentEvent(da: DA)
    ensures forall e :: e in Timeline(da) ==> e.status != Pending
    ensures forall e :: e in Timeline(da) ==> (e.status == Current <==> e.id in BlockingStages)
    ensures forall e :: e in Timeline(da) && e.status == Current ==> CurrentUnder(e.id, da.status)
    ensures forall i, j :: 0 <= i < j < |Timeline(da)| && Timeline(da)[i].status == Current
                           ==> Timeline(da)[j].status != Current
  {
    TimelineMembers(da);
    var t := Timeline(da);
    forall e | e in t ensures e.status != Pending && (e.status == Current <==> e.id in BlockingStages)
                              && (e.status == Current ==> CurrentUnder(e.id, da.status)) {
      StageFacts(da, e.id);
      StageCurrent(da, e.id);
    }
    forall i, j | 0 <= i < j < |t| && t[i].status == Current ensures t[j].status != Current {
      assert t[i] in t && t[j] in t;
      assert t[i].id != t[j].id;
    }
  }

  /** The free-text comment each event shows, by stage: only the five decision stages have one. */
  function ExpectedDescription(da: DA, id: EventId): Option<string> {
    match id
    case Revision => Described(da.revisionComment)
    case ValidatedFinance => Described(da.financeDecisionComment)
    case RefusedFinance => Described(da.financeDecisionComment)
    case Rejected => Described(da.rejectionReason)
    case RejectedComptabilite => Described(da.comptabiliteRejectionReason)
    case _ => None
  }

  /**
   * The timestamp each stage reads: its own slot, except that the finance approval and
   * refusal share `validated_finance_at` and the payment and accounting rejection share
   * `comptabilise_at`.
   */
  function ExpectedDate(da: DA, id: EventId): Option<int> {
    match id
    case Created => Some(da.createdAt)
    case Submitted => da.submittedAt
    case Analyzed => da.analyzedAt
    case Priced => da.pricedAt
    case SubmittedValidation => da.submittedValidationAt
    case Revision => da.revisionRequestedAt
    case ValidatedFinance => da.validatedFinanceAt
    case RefusedFinance => da.validatedFinanceAt
    case Rejected => da.rejectedAt
    case Paid => da.comptabiliseAt
    case RejectedComptabilite => da.comptabiliseAt
  }

  /**
   * The profile each stage is attributed to: the creator for creation and submission,
   * otherwise the profile joined on the stage's own slot, shared as the timestamps are.
   */
  function ExpectedActor(da: DA, id: EventId): Option<Profile> {
    match id
    case Created => da.createdBy
    case Submitted => da.createdBy
    case Analyzed => da.analyzedBy
    case Priced => da.pricedBy
    case SubmittedValidation => da.submittedValidationBy
    case Revision => da.revisionRequestedBy
    case ValidatedFinance => da.validatedFinanceBy
    case RefusedFinance => da.validatedFinanceBy
    case Rejected => da.rejectedBy
    case Paid => da.comptabiliseBy
    case RejectedComptabilite => da.comptabiliseBy
  }

  /** A stage's event is dated at the stage's timestamp and names the stage's actor. */
  lemma StageDated(da: DA, id: EventId)
    requires StageEvent(da, id).Some?
    ensures ExpectedDate(da, id) == Some(StageEvent(da, id).value.date)
    ensures StageEvent(da, id).value.actorName == FormatActorName(ExpectedActor(da, id))
  {
    match id
    case Created =>
    case Submitted =>
    case Analyzed =>
    case Priced =>
    case SubmittedValidation =>
    case Revision =>
    case ValidatedFinance =>
    case RefusedFinance =>
    case Rejected =>
    case Paid =>
    case RejectedComptabilite =>
  }

  /**
   * Every event carries the date of its own stage's timestamp and the name of its own
   * stage's actor, so the sort by date orders the stages by when they happened.
   */
  lemma DatesAndActors(da: DA)
    ensures forall e :: e in Timeline(da) ==>
              ExpectedDate(da, e.id) == Some(e.date) && e.actorName == FormatActorName(ExpectedActor(da, e.id))
  {
    TimelineMembers(da);
    forall e | e in Timeline(da)
      ensures ExpectedDate(da, e.id) == Some(e.date) && e.actorName == FormatActorName(ExpectedActor(da, e.id))
    {
      StageDated(da, e.id);
    }
  }

  /** Descriptions come from the stage's own comment field, and no other event has one. */
  lemma Descriptions(da: DA)
    ensures forall e :: e in Timeline(da) ==> e.description == ExpectedDescription(da, e.id)
  {
    TimelineMembers(da);
    forall e | e in Timeline(da) ensures e.description == ExpectedDescription(da, e.id) {
      StageFacts(da, e.id);
    }
  }

  /** Every event names its actor: the name is never empty. */
  lemma ActorsNamed(da: DA)
    ensures forall e :: e in Timeline(da) ==> e.actorName != []
  {
    TimelineMembers(da);
    forall e | e in Timeline(da) ensures e.actorName != [] {
      StageFacts(da, e.id);
    }
  }

  /**
   * The timeline is the pushed events reordered: a permutation of them, sorted by ascending
   * date, with events of equal date in push (stage) order.
   */
  lemma TimelineOrder(da: DA)
    ensures multiset(Timeline(da)) == multiset(Emitted(da))
    ensures SortedByDate(Timeline(da))
    ensures forall d :: WithDate(Timeline(da), d) == WithDate(Emitted(da), d)
  {
    SortPermutes(Emitted(da));
    SortSorted(Emitted(da));
    forall d ensures WithDate(Timeline(da), d) == WithDate(Emitted(da), d) {
      SortStable(Emitted(da), d);
    }
  }

  /** A request with nothing recorded beyond its creation has the creation event alone. */
  lemma OnlyCreation(da: DA)
    requires da.submittedAt.None? && da.analyzedAt.None? && da.pricedAt.None?
    requires da.submittedValidationAt.None? && da.revisionRequestedAt.None?
    requires da.validatedFinanceAt.None? && da.rejectedAt.None? && da.comptabiliseAt.None?
    ensures DATimeline(da) == Some([Event(Created, "Création de la DA", da.createdAt,
                                          FormatActorName(da.createdBy), None, Completed)])
  {
    assert StageOrder == [Created] + StageOrder[1..];
    CollectCons(da, Created, StageOrder[1..]);
    CollectAbsent(da, StageOrder[1..]);
    assert Emitted(da) == [StageEvent(da, Created).value];
  }

  lemma {:induction false} CollectAbsent(da: DA, ids: seq<EventId>)
    requires forall k :: 0 <= k < |ids| ==> StageEvent(da, ids[k]).None?
    ensures Collect(da, ids) == []
  {
    if ids != [] {
      assert StageEvent(da, ids[0]).None?;
      CollectAbsent(da, ids[1..]);
    }
  }

  /** A finance refusal is shown as the current refusal, carrying the decision comment. */
  lemma RefusalScenario(da: DA)
    requires da.status == RefuseeFinance && da.validatedFinanceAt.Some?
    ensures Event(RefusedFinance, "Refusée par DAF/DG", da.validatedFinanceAt.value,
                  FormatActorName(da.validatedFinanceBy), Described(da.financeDecisionComment), Current)
            in Timeline(da)
    ensures !HasEvent(Timeline(da), ValidatedFinance)
  {
    var refusal := Event(RefusedFinance, "Refusée par DAF/DG", da.validatedFinanceAt.value,
                         FormatActorName(da.validatedFinanceBy), Described(da.financeDecisionComment), Current);
    assert StageEvent(da, RefusedFinance) == Some(refusal);
    StageAppears(da, RefusedFinance);
    RefusalIsNoApproval(da);
    StageAppears(da, ValidatedFinance);
  }

  lemma RefusalIsNoApproval(da: DA)
    requires da.status == RefuseeFinance
    ensures StageEvent(da, ValidatedFinance).None?
  {
    assert da.status !in [ValideeFinance, Payee, RejeteeComptabilite] by {
      assert RefuseeFinance[0] != ValideeFinance[0];
      assert |RefuseeFinance| != |Payee| && |RefuseeFinance| != |RejeteeComptabilite|;
    }
  }
}
