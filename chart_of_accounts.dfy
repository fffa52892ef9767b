/**
 * The chart-of-accounts administration page. Accounts follow the SYSCOHADA (OHADA) chart,
 * in which the leading digit of an account code is its class, 1 to 7. The page edits the
 * account table through a form, filters and groups the accounts by class, and counts them.
 *
 * The account table the page reads and writes is held in memory as `comptes`.
 */
module ChartOfAccounts {
  import opened Optional
  import opened Text

  datatype Compte = Compte(id: string, code: string, libelle: string, classe: int, isActive: bool)

  /** The edit form; its class is the number behind the select's digit string. */
  datatype Form = Form(code: string, libelle: string, classe: int)

  /** The class filter: every class, or one class. */
  datatype ClassFilter = AllClasses | OnlyClasse(classe: int)

  /** What a save attempt ends with (the toast it shows). */
  datatype SaveOutcome = Incomplete | InvalidFormat | DuplicateCode | Updated | Inserted

  /** The SYSCOHADA account classes and their titles. */
  const SyscohadaClasses: map<int, string> := map[
    1 := "Comptes de ressources durables",
    2 := "Comptes d'actif immobilisé",
    3 := "Comptes de stocks",
    4 := "Comptes de tiers",
    5 := "Comptes de trésorerie",
    6 := "Comptes de charges",
    7 := "Comptes de produits"]

  /** The class keys in the order the statistics list them. */
  const ClasseKeys: seq<int> := [1, 2, 3, 4, 5, 6, 7]

  /** The form of a new account: empty fields, class 6 (expenses). */
  const DefaultForm := Form([], [], 6)

  /** The activity flag the table gives a new row; the insert does not set it. */
  const DefaultActive := true

  predicate DistinctIds(s: seq<Compte>) {
    forall i, j :: 0 <= i < j < |s| ==> s[i].id != s[j].id
  }

  predicate DistinctCodes(s: seq<Compte>) {
    forall i, j :: 0 <= i < j < |s| ==> s[i].code != s[j].code
  }

  // ---------------------------------------------------------------------------
  // The code field.

  /**
   * The class picked by the code field: the code's first digit when it is a SYSCOHADA
   * class, otherwise the class already in the form.
   */
  function DetectClasse(code: string, current: int): (r: int)
    requires AllDigits(code)
    ensures r == current || (code != [] && r == DigitValue(code[0]))
    ensures r in SyscohadaClasses <==> (code != [] && DigitValue(code[0]) in SyscohadaClasses)
                                       || current in SyscohadaClasses
  {
    if code != [] && 1 <= DigitValue(code[0]) <= 7 then DigitValue(code[0]) else current
  }

  /** Typing into the code field never takes the form's class outside the chart. */
  lemma DetectClasseKeepsChartClass(code: string, current: int)
    requires AllDigits(code) && current in SyscohadaClasses
    ensures DetectClasse(code, current) in SyscohadaClasses
  {
  }

  /**
   * A code that is empty, or starts with a digit outside the chart (0, 8 or 9), leaves the
   * form's class as it was.
   */
  lemma DetectClasseOtherwiseStays(code: string, current: int)
    requires AllDigits(code)
    requires code == [] || !(1 <= DigitValue(code[0]) <= 7)
    ensures DetectClasse(code, current) == current
  {
  }

  /** A code starting with a class digit sets the class to that digit, whatever came before. */
  lemma DetectClasseFollowsCode(value: string, current: int)
    requires var code := KeepDigits(value); code != [] && 1 <= DigitValue(code[0]) <= 7
    ensures DetectClasse(KeepDigits(value), current) == DigitValue(KeepDigits(value)[0])
  {
  }

  // ---------------------------------------------------------------------------
  // The table updates.

  /** `comptes.find(c => c.code === code)` finds something. */
  predicate CodeTaken(comptes: seq<Compte>, code: string) {
    exists c :: c in comptes && c.code == code
  }

  /** The row the insert of `form` creates: the form's three fields, active by default. */
  function NewCompte(id: string, form: Form): (c: Compte)
    ensures c.id == id && c.isActive
    ensures Form(c.code, c.libelle, c.classe) == form
  {
    Compte(id, form.code, form.libelle, form.classe, DefaultActive)
  }

  /** Once a form is inserted its code is taken, so saving the same new form again is refused. */
  lemma InsertTakesCode(comptes: seq<Compte>, id: string, form: Form)
    ensures CodeTaken(comptes + [NewCompte(id, form)], form.code)
  {
    assert NewCompte(id, form) in comptes + [NewCompte(id, form)];
  }

  /** Both fields are filled in: neither is empty or white space only. */
  predicate Complete(form: Form) {
    !AllSpace(form.code) && !AllSpace(form.libelle)
  }

  /** `Complete` is the save guard `form.code.trim() && form.libelle.trim()`. */
  lemma CompleteIsTrimGuard(form: Form)
    ensures Complete(form) <==> Trim(form.code) != [] && Trim(form.libelle) != []
  {
  }

  /** The form passes validation: both fields filled in and a numeric code. */
  predicate Accepted(form: Form) {
    Complete(form) && IsNumeric(form.code)
  }

  /** The class a numeric code belongs to: its first digit. */
  function CodeClasse(code: string): (k: int)
    requires IsNumeric(code)
    ensures 0 <= k <= 9
  {
    DigitValue(code[0])
  }

  /**
   * The form `handleSave` queues before writing: its class set to the code's first digit.
   * These are also the values a save would write if it sent the detected class.
   */
  function Sent(form: Form): (r: Form)
    requires IsNumeric(form.code)
    ensures r.code == form.code && r.libelle == form.libelle
    ensures r.classe == CodeClasse(form.code)
  {
    form.(classe := CodeClasse(form.code))
  }

  /**
   * As written, a save inserts the class the form holds when the save starts. A new form
   * whose class select disagrees with its code (code 401000, a third-party account of class
   * 4, with the select on 6) is inserted under class 6, so the table no longer has every
   * class following its code; inserting the detected values `Sent` instead keeps that.
   */
  lemma StaleClasseIsWritten()
    ensures var form := Form("401000", "Fournisseurs", 6);
            Accepted(form) && !CodeTaken([], form.code) && ClassesFollowCodes([])
            && !ClassesFollowCodes([] + [NewCompte("n1", form)])
            && ClassesFollowCodes([] + [NewCompte("n1", Sent(form))])
            && Sent(form).classe == 4
  {
    var form := Form("401000", "Fournisseurs", 6);
    assert !IsSpace(form.code[0]) && !IsSpace(form.libelle[0]);
  }

  /** Every account's class is the first digit of its numeric code. */
  predicate ClassesFollowCodes(comptes: seq<Compte>) {
    forall c :: c in comptes ==> IsNumeric(c.code) && c.classe == CodeClasse(c.code)
  }

  /** A corrected save keeps every account's class equal to its code's first digit. */
  lemma SaveKeepsClassesFollowingCodes(comptes: seq<Compte>, id: string, editId: string, form: Form)
    requires ClassesFollowCodes(comptes) && Accepted(form)
    ensures ClassesFollowCodes(comptes + [NewCompte(id, Sent(form))])
    ensures ClassesFollowCodes(UpdateCompte(comptes, editId, Sent(form)))
  {
    var u := UpdateCompte(comptes, editId, Sent(form));
    forall c | c in u ensures IsNumeric(c.code) && c.classe == CodeClasse(c.code) {
      var i :| 0 <= i < |u| && u[i] == c;
      assert comptes[i] in comptes;
    }
  }

  lemma AppendKeepsIds(comptes: seq<Compte>, c: Compte)
    requires DistinctIds(comptes)
    requires forall d :: d in comptes ==> d.id != c.id
    ensures DistinctIds(comptes + [c])
  {
    var r := comptes + [c];
    forall i, j | 0 <= i < j < |r| ensures r[i].id != r[j].id {
      assert r[i] == comptes[i] && comptes[i] in comptes;
    }
  }

  /** The update of code, label and class of the row with id `id`. */
  function UpdateCompte(comptes: seq<Compte>, id: string, form: Form): (r: seq<Compte>)
    ensures |r| == |comptes|
    ensures forall i :: 0 <= i < |r| && comptes[i].id == id ==>
              r[i] == comptes[i].(code := form.code, libelle := form.libelle, classe := form.classe)
    ensures forall i :: 0 <= i < |r| && comptes[i].id != id ==> r[i] == comptes[i]
  {
    seq(|comptes|, i requires 0 <= i < |comptes| =>
      if comptes[i].id == id
      then comptes[i].(code := form.code, libelle := form.libelle, classe := form.classe)
      else comptes[i])
  }

  /** The `is_active` write of the row with id `id`. */
  function SetActive(comptes: seq<Compte>, id: string, active: bool): (r: seq<Compte>)
    ensures |r| == |comptes|
    ensures forall i :: 0 <= i < |r| && comptes[i].id == id ==> r[i] == comptes[i].(isActive := active)
    ensures forall i :: 0 <= i < |r| && comptes[i].id != id ==> r[i] == comptes[i]
  {
    seq(|comptes|, i requires 0 <= i < |comptes| =>
      if comptes[i].id == id then comptes[i].(isActive := active) else comptes[i])
  }

  /** Updates never change which ids the table holds. */
  lemma UpdatesKeepIds(comptes: seq<Compte>, id: string, form: Form, active: bool)
    requires DistinctIds(comptes)
    ensures DistinctIds(UpdateCompte(comptes, id, form))
    ensures DistinctIds(SetActive(comptes, id, active))
  {
    var u, a := UpdateCompte(comptes, id, form), SetActive(comptes, id, active);
    assert forall i :: 0 <= i < |comptes| ==> u[i].id == comptes[i].id && a[i].id == comptes[i].id;
  }

  /**
   * Toggling a row twice, each time from the value shown, gives the table back: the second
   * write undoes the first.
   */
  lemma ToggleTwice(comptes: seq<Compte>, id: string, shown: bool)
    requires forall c :: c in comptes && c.id == id ==> c.isActive == shown
    ensures SetActive(SetActive(comptes, id, !shown), id, shown) == comptes
  {
    var r := SetActive(SetActive(comptes, id, !shown), id, shown);
    forall i | 0 <= i < |comptes| ensures r[i] == comptes[i] {
      if comptes[i].id == id {
        assert comptes[i] in comptes;
      }
    }
  }

  /** A create that passed the duplicate check keeps the codes of the table distinct. */
  lemma InsertKeepsCodesDistinct(comptes: seq<Compte>, id: string, form: Form)
    requires DistinctCodes(comptes) && !CodeTaken(comptes, form.code)
    ensures DistinctCodes(comptes + [NewCompte(id, form)])
  {
    var r := comptes + [NewCompte(id, form)];
    forall i, j | 0 <= i < j < |r| ensures r[i].code != r[j].code {
      if j == |comptes| {
        assert r[i] == comptes[i] && comptes[i] in comptes;
      } else {
        assert r[i] == comptes[i] && r[j] == comptes[j];
      }
    }
  }

  /** The edit path has no duplicate check: an edit can give a row another row's code. */
  lemma EditCanDuplicateCode()
    ensures var comptes := [Compte("a", "601100", "Achats", 6, true), Compte("b", "602100", "Achats stockés", 6, true)];
            DistinctCodes(comptes)
            && !DistinctCodes(UpdateCompte(comptes, "b", Form("601100", "Achats stockés", 6)))
  {
    var comptes := [Compte("a", "601100", "Achats", 6, true), Compte("b", "602100", "Achats stockés", 6, true)];
    assert comptes[1].code[2] != comptes[0].code[2];
    var r := UpdateCompte(comptes, "b", Form("601100", "Achats stockés", 6));
    assert comptes[0].id != "b" by { assert comptes[0].id[0] != 'b'; }
    assert r[0].code == r[1].code;
  }

  // ---------------------------------------------------------------------------
  // Search, class filter, grouping and statistics.

  /** The search matches the code or the label, ignoring case; an empty search matches all. */
  predicate MatchesSearch(c: Compte, term: string) {
    || term == []
    || Contains(ToLower(c.code), ToLower(term))
    || Contains(ToLower(c.libelle), ToLower(term))
  }

  predicate MatchesClasse(c: Compte, filter: ClassFilter) {
    filter.AllClasses? || c.classe == filter.classe
  }

  predicate Keep(c: Compte, term: string, filter: ClassFilter) {
    MatchesSearch(c, term) && MatchesClasse(c, filter)
  }

  /** The search ignores ASCII case: two terms that lower to the same text match the same accounts. */
  lemma SearchIgnoresCase(c: Compte, t: string, u: string)
    requires ToLower(t) == ToLower(u)
    ensures MatchesSearch(c, t) == MatchesSearch(c, u)
  {
    assert |t| == |ToLower(t)| == |ToLower(u)| == |u|;
  }

  /** An upper-case search finds a lower-case label: "FOUR" finds "Fournisseurs". */
  lemma UpperCaseSearchFindsLabel()
    ensures MatchesSearch(Compte("c1", "401000", "Fournisseurs", 4, true), "FOUR")
  {
    var lowered := ToLower("Fournisseurs");
    assert ToLower("FOUR") == "four";
    assert lowered[0..4] == "four";
    assert OccursAt(lowered, ToLower("FOUR"), 0);
  }

  /** `filteredComptes`: the accounts the search and the class filter keep, in table order. */
  function Filtered(comptes: seq<Compte>, term: string, filter: ClassFilter): (r: seq<Compte>)
    ensures |r| <= |comptes|
  {
    if comptes == [] then []
    else (if Keep(comptes[0], term, filter) then [comptes[0]] else []) + Filtered(comptes[1..], term, filter)
  }

  /** `a` is `b` with some elements left out, the rest in the same order. */
  predicate SubsequenceOf(a: seq<Compte>, b: seq<Compte>)
    decreases |b|
  {
    if a == [] then true
    else if b == [] then false
    else if a[0] == b[0] then SubsequenceOf(a[1..], b[1..])
    else SubsequenceOf(a, b[1..])
  }

  lemma {:induction false} SubsequenceOfSelf(s: seq<Compte>)
    ensures SubsequenceOf(s, s)
  {
    if s != [] {
      SubsequenceOfSelf(s[1..]);
    }
  }

  lemma {:induction false} SubsequenceOfTail(a: seq<Compte>, x: Compte, b: seq<Compte>)
    requires SubsequenceOf(a, b)
    ensures SubsequenceOf(a, [x] + b)
    decreases |b|, 1
  {
    assert ([x] + b)[1..] == b;
    if a != [] && a[0] == x {
      SubsequenceOfDrop(a, b);
    }
  }

  lemma {:induction false} SubsequenceOfDrop(a: seq<Compte>, b: seq<Compte>)
    requires a != [] && SubsequenceOf(a, b)
    ensures SubsequenceOf(a[1..], b)
    decreases |b|, 0
  {
    if a[0] == b[0] {
      SubsequenceOfTail(a[1..], b[0], b[1..]);
      assert [b[0]] + b[1..] == b;
    } else {
      SubsequenceOfDrop(a, b[1..]);
      SubsequenceOfTail(a[1..], b[0], b[1..]);
      assert [b[0]] + b[1..] == b;
    }
  }

  /**
   * The filter keeps exactly the accounts that match both the search and the class filter,
   * and keeps them in table order.
   */
  lemma {:induction false} FilteredSpec(comptes: seq<Compte>, term: string, filter: ClassFilter)
    ensures forall c :: c in Filtered(comptes, term, filter) <==> c in comptes && Keep(c, term, filter)
    ensures SubsequenceOf(Filtered(comptes, term, filter), comptes)
  {
    if comptes != [] {
      var rest := Filtered(comptes[1..], term, filter);
      FilteredSpec(comptes[1..], term, filter);
      assert comptes == [comptes[0]] + comptes[1..];
      if Keep(comptes[0], term, filter) {
        assert ([comptes[0]] + rest)[1..] == rest;
      } else {
        SubsequenceOfTail(rest, comptes[0], comptes[1..]);
        assert [] + rest == rest;
      }
    }
  }

  /** The empty-search check is redundant: every text includes the empty string. */
  lemma EmptySearchMatchesAnyway(c: Compte)
    ensures Contains(ToLower(c.code), ToLower([]))
  {
    ContainsEmpty(ToLower(c.code));
  }

  /** With no search and every class selected, the whole table is shown. */
  lemma {:induction false} FilteredEverything(comptes: seq<Compte>)
    ensures Filtered(comptes, [], AllClasses) == comptes
  {
    if comptes != [] {
      FilteredEverything(comptes[1..]);
      assert comptes == [comptes[0]] + comptes[1..];
    }
  }

  /** The filter after a click on the card of class `k`. */
  function CardFilter(current: ClassFilter, k: int): (r: ClassFilter)
    ensures current == OnlyClasse(k) ==> r == AllClasses
    ensures current != OnlyClasse(k) ==> r == OnlyClasse(k)
  {
    if current == OnlyClasse(k) then AllClasses else OnlyClasse(k)
  }

  /**
   * Two clicks on the same card: from no filter, or from another class, they end on no
   * filter; from that card's own class, they end on it again.
   */
  lemma CardClickTwice(current: ClassFilter, k: int)
    ensures CardFilter(CardFilter(current, k), k) == (if current == OnlyClasse(k) then OnlyClasse(k) else AllClasses)
    ensures current.AllClasses? ==> CardFilter(CardFilter(current, k), k) == current
  {
  }

  /** The accounts of class `k`, in order. */
  function WithClasse(s: seq<Compte>, k: int): (r: seq<Compte>)
    ensures |r| <= |s|
  {
    if s == [] then []
    else WithClasse(s[..|s| - 1], k) + (if s[|s| - 1].classe == k then [s[|s| - 1]] else [])
  }

  /** How many accounts of class `k` are active. */
  function ActiveWithClasse(s: seq<Compte>, k: int): (n: nat)
    ensures n <= |WithClasse(s, k)|
  {
    if s == [] then 0
    else ActiveWithClasse(s[..|s| - 1], k) + (if s[|s| - 1].classe == k && s[|s| - 1].isActive then 1 else 0)
  }

  /** The active accounts, in order. */
  function ActiveOnly(s: seq<Compte>): (r: seq<Compte>)
    ensures |r| <= |s|
  {
    if s == [] then []
    else ActiveOnly(s[..|s| - 1]) + (if s[|s| - 1].isActive then [s[|s| - 1]] else [])
  }

  lemma WithClasseSnoc(p: seq<Compte>, x: Compte, k: int)
    ensures WithClasse(p + [x], k) == WithClasse(p, k) + (if x.classe == k then [x] else [])
  {
    assert (p + [x])[..|p|] == p;
  }

  /** The active count of class `k` is the number of active accounts that are of class `k`. */
  lemma {:induction false} ActiveCount(s: seq<Compte>, k: int)
    ensures ActiveWithClasse(s, k) == |WithClasse(ActiveOnly(s), k)|
  {
    if s != [] {
      var p, x := s[..|s| - 1], s[|s| - 1];
      ActiveCount(p, k);
      if x.isActive {
        WithClasseSnoc(ActiveOnly(p), x, k);
      } else {
        assert ActiveOnly(s) == ActiveOnly(p) + [];
        assert ActiveOnly(p) + [] == ActiveOnly(p);
      }
    }
  }

  /** When every account is active, each class's active count is its count; when none is, 0. */
  lemma {:induction false} ActiveCountExtremes(s: seq<Compte>, k: int)
    ensures (forall c :: c in s ==> c.isActive) ==> ActiveWithClasse(s, k) == |WithClasse(s, k)|
    ensures (forall c :: c in s ==> !c.isActive) ==> ActiveWithClasse(s, k) == 0
  {
    if s != [] {
      var p := s[..|s| - 1];
      assert forall c :: c in p ==> c in s;
      assert s[|s| - 1] in s;
      ActiveCountExtremes(p, k);
    }
  }

  lemma WithClasseMembers(s: seq<Compte>, k: int)
    ensures forall c :: c in WithClasse(s, k) <==> c in s && c.classe == k
  {
    if s != [] {
      WithClasseMembers(s[..|s| - 1], k);
      assert s == s[..|s| - 1] + [s[|s| - 1]];
    }
  }

  lemma {:induction false} WithClasseAbsent(s: seq<Compte>, k: int)
    requires forall c :: c in s ==> c.classe != k
    ensures WithClasse(s, k) == []
  {
    if s != [] {
      assert s[|s| - 1] in s;
      assert forall c :: c in s[..|s| - 1] ==> c in s;
      WithClasseAbsent(s[..|s| - 1], k);
    }
  }

  /**
   * `groupedByClasse`: a reduce that pushes each filtered account onto the list kept for its
   * class, creating the list on first use.
   */
  method GroupByClasse(filtered: seq<Compte>) returns (groups: map<int, seq<Compte>>)
    ensures forall k :: k in groups <==> exists c :: c in filtered && c.classe == k
    ensures forall k :: k in groups ==> groups[k] == WithClasse(filtered, k)
  {
    groups := map[];
    for i := 0 to |filtered|
      invariant forall k :: k in groups <==> exists c :: c in filtered[..i] && c.classe == k
      invariant forall k :: k in groups ==> groups[k] == WithClasse(filtered[..i], k)
    {
      var c := filtered[i];
      assert filtered[..i + 1] == filtered[..i] + [c];
      assert filtered[..i + 1][..i] == filtered[..i];
      if c.classe !in groups {
        groups := groups[c.classe := []];
        WithClasseAbsent(filtered[..i], c.classe);
      }
      groups := groups[c.classe := groups[c.classe] + [c]];
    }
    assert filtered[..|filtered|] == filtered;
  }

  /** How many times `x` occurs in `ks`. */
  function Occurrences(ks: seq<int>, x: int): nat {
    if ks == [] then 0 else (if ks[0] == x then 1 else 0) + Occurrences(ks[1..], x)
  }

  /** The number of accounts in the groups of the classes `ks`. */
  function GroupSizes(s: seq<Compte>, ks: seq<int>): nat {
    if ks == [] then 0 else |WithClasse(s, ks[0])| + GroupSizes(s, ks[1..])
  }

  lemma {:induction false} GroupSizesAppend(s: seq<Compte>, c: Compte, ks: seq<int>)
    ensures GroupSizes(s + [c], ks) == GroupSizes(s, ks) + Occurrences(ks, c.classe)
  {
    if ks != [] {
      GroupSizesAppend(s, c, ks[1..]);
      assert (s + [c])[..|s + [c]| - 1] == s;
    }
  }

  lemma {:induction false} OccursOnce(ks: seq<int>, x: int)
    requires forall i, j :: 0 <= i < j < |ks| ==> ks[i] != ks[j]
    requires x in ks
    ensures Occurrences(ks, x) == 1
  {
    if ks[0] == x {
      OccursNever(ks[1..], x);
    } else {
      OccursOnce(ks[1..], x);
    }
  }

  lemma {:induction false} OccursNever(ks: seq<int>, x: int)
    requires x !in ks
    ensures Occurrences(ks, x) == 0
  {
    if ks != [] {
      OccursNever(ks[1..], x);
    }
  }

  /**
   * Grouping loses and duplicates nothing: over any list of distinct classes that covers
   * every account's class, the group sizes add up to the number of accounts.
   */
  lemma {:induction false} GroupSizesSum(s: seq<Compte>, ks: seq<int>)
    requires forall i, j :: 0 <= i < j < |ks| ==> ks[i] != ks[j]
    requires forall c :: c in s ==> c.classe in ks
    ensures GroupSizes(s, ks) == |s|
  {
    if s == [] {
      GroupSizesEmpty(ks);
    } else {
      var init, last := s[..|s| - 1], s[|s| - 1];
      assert s == init + [last];
      GroupSizesSum(init, ks);
      GroupSizesAppend(init, last, ks);
      OccursOnce(ks, last.classe);
    }
  }

  lemma {:induction false} GroupSizesEmpty(ks: seq<int>)
    ensures GroupSizes([], ks) == 0
  {
    if ks != [] {
      GroupSizesEmpty(ks[1..]);
    }
  }

  /** One statistics card: a class, its number of accounts and how many are active. */
  datatype ClasseStat = ClasseStat(classe: int, count: nat, activeCount: nat)

  /** `classeStats`: one card per SYSCOHADA class, in class order. */
  function ClasseStats(comptes: seq<Compte>): (r: seq<ClasseStat>)
    ensures |r| == |ClasseKeys|
    ensures forall i :: 0 <= i < |r| ==> r[i].classe == ClasseKeys[i] && r[i].activeCount <= r[i].count
    ensures forall i :: 0 <= i < |r| ==>
              r[i].count == |WithClasse(comptes, ClasseKeys[i])|
              && r[i].activeCount == |WithClasse(ActiveOnly(comptes), ClasseKeys[i])|
  {
    forall k ensures ActiveWithClasse(comptes, k) == |WithClasse(ActiveOnly(comptes), k)| {
      ActiveCount(comptes, k);
    }
    seq(|ClasseKeys|, i requires 0 <= i < |ClasseKeys| =>
      ClasseStat(ClasseKeys[i], |WithClasse(comptes, ClasseKeys[i])|, ActiveWithClasse(comptes, ClasseKeys[i])))
  }

  /** The statistics cover exactly the SYSCOHADA classes. */
  lemma ClasseKeysAreTheChart()
    ensures forall k :: k in ClasseKeys <==> k in SyscohadaClasses
  {
  }

  /** When every account is in a SYSCOHADA class, the cards' counts add up to the table size. */
  lemma StatsCountEveryAccount(comptes: seq<Compte>)
    requires forall c :: c in comptes ==> c.classe in SyscohadaClasses
    ensures GroupSizes(comptes, ClasseKeys) == |comptes|
    ensures forall i :: 0 <= i < |ClasseKeys| ==> ClasseStats(comptes)[i].count == |WithClasse(comptes, ClasseKeys[i])|
  {
    GroupSizesSum(comptes, ClasseKeys);
  }

  // ---------------------------------------------------------------------------
  // The page.

  class AccountsPage {
    var comptes: seq<Compte>
    var editing: Option<Compte>
    var form: Form
    var showDialog: bool
    var searchTerm: string
    var filterClasse: ClassFilter

    /** The table's ids are unique. */
    ghost predicate Valid()
      reads this
    {
      DistinctIds(comptes)
    }

    /** The page with the loaded table, an empty form and no filter. */
    constructor (loaded: seq<Compte>)
      requires DistinctIds(loaded)
      ensures Valid()
      ensures comptes == loaded && editing == None && form == DefaultForm && !showDialog
      ensures searchTerm == [] && filterClasse == AllClasses
    {
      comptes := loaded;
      editing := None;
      form := DefaultForm;
      showDialog := false;
      searchTerm := [];
      filterClasse := AllClasses;
    }

    /** `openNew`: a blank form for a new account. */
    method OpenNew()
      modifies this
      ensures editing == None && form == DefaultForm && showDialog
      ensures comptes == old(comptes) && searchTerm == old(searchTerm) && filterClasse == old(filterClasse)
    {
      editing := None;
      form := DefaultForm;
      showDialog := true;
    }

    /** `openEdit`: the form filled from an existing account. */
    method OpenEdit(compte: Compte)
      modifies this
      ensures editing == Some(compte) && form == Form(compte.code, compte.libelle, compte.classe) && showDialog
      ensures comptes == old(comptes) && searchTerm == old(searchTerm) && filterClasse == old(filterClasse)
    {
      editing := Some(compte);
      form := Form(compte.code, compte.libelle, compte.classe);
      showDialog := true;
    }

    /** The code field's `onChange`: keeps the digits and detects the class from the first one. */
    method OnCodeChange(value: string)
      modifies this
      ensures AllDigits(form.code)
      ensures form == old(form).(code := KeepDigits(value), classe := DetectClasse(KeepDigits(value), old(form).classe))
      ensures comptes == old(comptes) && editing == old(editing) && showDialog == old(showDialog)
      ensures searchTerm == old(searchTerm) && filterClasse == old(filterClasse)
    {
      var code := KeepDigits(value);
      form := form.(code := code, classe := DetectClasse(code, form.classe));
    }

    /** The class select's `onValueChange`. */
    method OnClasseSelect(classe: int)
      modifies this
      ensures form == old(form).(classe := classe)
      ensures comptes == old(comptes) && editing == old(editing) && showDialog == old(showDialog)
      ensures searchTerm == old(searchTerm) && filterClasse == old(filterClasse)
    {
      form := form.(classe := classe);
    }

    /** The label field's `onChange`. */
    method OnLibelleChange(value: string)
      modifies this
      ensures form == old(form).(libelle := value)
      ensures comptes == old(comptes) && editing == old(editing) && showDialog == old(showDialog)
      ensures searchTerm == old(searchTerm) && filterClasse == old(filterClasse)
    {
      form := form.(libelle := value);
    }

    /**
     * `handleSave`. Refuses, writing nothing, a blank code or label and a code that is not all
     * digits. Then queues the form's class set to the code's first digit, but writes the
     * class the form held when the save started (see `StaleClasseIsWritten`). Editing updates
     * the edited row; creating refuses a code already in the table, leaving the queued class
     * in the form, and otherwise appends the new row. A write resets the form, clears
     * `editing` and closes the dialog.
     */
    method HandleSave(newId: string) returns (outcome: SaveOutcome)
      requires Valid()
      requires forall c :: c in comptes ==> c.id != newId
      modifies this
      ensures Valid()
      ensures searchTerm == old(searchTerm) && filterClasse == old(filterClasse)
      ensures !Complete(old(form)) ==>
                outcome == Incomplete && comptes == old(comptes) && form == old(form)
                && editing == old(editing) && showDialog == old(showDialog)
      ensures Complete(old(form)) && !IsNumeric(old(form).code) ==>
                outcome == InvalidFormat && comptes == old(comptes) && form == old(form)
                && editing == old(editing) && showDialog == old(showDialog)
      ensures Accepted(old(form)) && old(editing).Some? ==>
                outcome == Updated && comptes == UpdateCompte(old(comptes), old(editing).value.id, old(form))
                && form == DefaultForm && editing == None && !showDialog
      ensures Accepted(old(form)) && old(editing).None? && CodeTaken(old(comptes), old(form).code) ==>
                outcome == DuplicateCode && comptes == old(comptes) && editing == old(editing)
                && showDialog == old(showDialog) && form == Sent(old(form))
      ensures Accepted(old(form)) && old(editing).None? && !CodeTaken(old(comptes), old(form).code) ==>
                outcome == Inserted && comptes == old(comptes) + [NewCompte(newId, old(form))]
                && form == DefaultForm && editing == None && !showDialog
    {
      if !Complete(form) {
        return Incomplete;
      }
      if !IsNumeric(form.code) {
        return InvalidFormat;
      }
      var written := form;
      var codeClasse := CodeClasse(form.code);
      if codeClasse != form.classe {
        form := form.(classe := codeClasse);
      }
      if editing.Some? {
        UpdatesKeepIds(comptes, editing.value.id, written, false);
        comptes := UpdateCompte(comptes, editing.value.id, written);
        outcome := Updated;
      } else {
        if CodeTaken(comptes, written.code) {
          return DuplicateCode;
        }
        AppendKeepsIds(comptes, NewCompte(newId, written));
        comptes := comptes + [NewCompte(newId, written)];
        outcome := Inserted;
      }
      showDialog := false;
      form := DefaultForm;
      editing := None;
    }

    /** The dialog's `onOpenChange` and its cancel button: opens or closes it, form untouched. */
    method SetDialogOpen(open: bool)
      modifies this
      ensures showDialog == open
      ensures comptes == old(comptes) && editing == old(editing) && form == old(form)
      ensures searchTerm == old(searchTerm) && filterClasse == old(filterClasse)
    {
      showDialog := open;
    }

    /** The search field's `onChange`. */
    method SetSearchTerm(term: string)
      modifies this
      ensures searchTerm == term
      ensures comptes == old(comptes) && editing == old(editing) && form == old(form)
      ensures showDialog == old(showDialog) && filterClasse == old(filterClasse)
    {
      searchTerm := term;
    }

    /** The class filter select's `onValueChange`. */
    method SetFilterClasse(filter: ClassFilter)
      modifies this
      ensures filterClasse == filter
      ensures comptes == old(comptes) && editing == old(editing) && form == old(form)
      ensures showDialog == old(showDialog) && searchTerm == old(searchTerm)
    {
      filterClasse := filter;
    }

    /** A statistics card's click: filters on its class, or clears the filter on a second click. */
    method ClickClasseCard(classe: int)
      modifies this
      ensures filterClasse == CardFilter(old(filterClasse), classe)
      ensures comptes == old(comptes) && editing == old(editing) && form == old(form)
      ensures showDialog == old(showDialog) && searchTerm == old(searchTerm)
    {
      filterClasse := CardFilter(filterClasse, classe);
    }

    /** `toggleActive`: writes the negation of the value shown to the row with that id. */
    method ToggleActive(id: string, currentActive: bool)
      requires Valid()
      modifies this
      ensures Valid()
      ensures comptes == SetActive(old(comptes), id, !currentActive)
      ensures form == old(form) && editing == old(editing) && showDialog == old(showDialog)
      ensures searchTerm == old(searchTerm) && filterClasse == old(filterClasse)
    {
      UpdatesKeepIds(comptes, id, form, !currentActive);
      comptes := SetActive(comptes, id, !currentActive);
    }
  }
}
