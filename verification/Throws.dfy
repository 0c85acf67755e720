/** The throws list of the pedantic checks, pruned in place. */
module Throws {
  import opened Classes

  /** An entry of a throws clause: a throwable class, another class, an interface, or a name without a type. */
  datatype Entry = Throwable(cls: Class) | OtherClass | Interface | Bad

  datatype Report = NotAClass(index: nat) | NotThrowable(index: nat) | OverlyGeneral(index: nat) | Unchecked(index: nat)
    | Duplicate(index: nat) | Redundant(index: nat)

  /** The entries that get as far as the list. */
  predicate Listed(h: Hierarchy, ts: seq<Entry>, k: nat) {
    k < |ts| && ts[k].Throwable? && ts[k].cls != EXCEPTION && ts[k].cls != THROWABLE && Checked(h, ts[k].cls)
  }

  /** Entry j names a proper superclass of what entry k names. */
  predicate Above(h: Hierarchy, ts: seq<Entry>, k: nat, j: nat) {
    && k < |ts| && j < |ts| && ts[k].Throwable? && ts[j].Throwable?
    && ts[k].cls != ts[j].cls && IsSubclass(h, ts[k].cls, ts[j].cls)
  }

  predicate Same(ts: seq<Entry>, k: nat, j: nat) {
    k < |ts| && j < |ts| && ts[k] == ts[j]
  }

  /** Of the first n entries, entry k is one to keep: no listed entry is above it, and it is the first that
      names its class. */
  ghost predicate Kept(h: Hierarchy, ts: seq<Entry>, n: nat, k: nat) {
    && k < n && Listed(h, ts, k)
    && (forall j: nat :: j < n && Listed(h, ts, j) ==> !Above(h, ts, k, j))
    && (forall j: nat :: j < k ==> !Same(ts, k, j))
  }

  /** Entry k names a class that an earlier entry names, and no earlier one names a proper superclass. */
  ghost predicate Repeated(h: Hierarchy, ts: seq<Entry>, k: nat) {
    && Listed(h, ts, k)
    && (exists j: nat :: j < k && Same(ts, k, j))
    && (forall j: nat :: j < k && Listed(h, ts, j) ==> !Above(h, ts, k, j))
  }

  lemma {:induction false} NumberedDown(h: Hierarchy, c: Class, d: Class)
    requires IsSubclass(h, c, d) && c != d
    ensures d < c
    decreases c
  {
    if h[c] != d { NumberedDown(h, h[c], d); }
  }

  lemma {:induction false} FirstOf(ts: seq<Entry>, k: nat) returns (f: nat)
    requires k < |ts|
    ensures f <= k && Same(ts, f, k) && forall j: nat :: j < f ==> !Same(ts, f, j)
    decreases k
  {
    if j: nat :| j < k && Same(ts, k, j) {
      f := FirstOf(ts, j);
    } else {
      f := k;
    }
  }

  /** Every listed entry has a kept one that names its class or a superclass. */
  lemma {:induction false} KeptAbove(h: Hierarchy, ts: seq<Entry>, n: nat, k: nat) returns (x: nat)
    requires n <= |ts| && k < n && Listed(h, ts, k)
    ensures Kept(h, ts, n, x) && IsSubclass(h, ts[k].cls, ts[x].cls)
    decreases ts[k].cls
  {
    if j: nat :| j < n && Listed(h, ts, j) && Above(h, ts, k, j) {
      NumberedDown(h, ts[k].cls, ts[j].cls);
      x := KeptAbove(h, ts, n, j);
      SubclassTransitive(h, ts[k].cls, ts[j].cls, ts[x].cls);
    } else {
      x := FirstOf(ts, k);
    }
  }

  // ---- The scan for one new entry

  ghost predicate Distinct(l: seq<nat>) {
    forall i, j :: 0 <= i < j < |l| ==> l[i] != l[j]
  }

  /** The list holds exactly the entries to keep of the first n. */
  ghost predicate Maximal(h: Hierarchy, ts: seq<Entry>, n: nat, l: seq<nat>) {
    Distinct(l) && forall k :: k in l <==> Kept(h, ts, n, k)
  }

  /** During the scan for entry k, up to place i: from l, only entries below k are gone; the places passed
      hold no entry below k; and `add` tells whether they hold none that k repeats or is below. */
  ghost predicate Scanned(h: Hierarchy, ts: seq<Entry>, k: nat, l: seq<nat>, cur: seq<nat>, i: nat, add: bool) {
    && i <= |cur| && Distinct(cur)
    && (forall x :: x in cur ==> x in l)
    && (forall x :: x in l && !Above(h, ts, x, k) ==> x in cur)
    && (forall j :: 0 <= j < i ==> !Above(h, ts, cur[j], k))
    && (add <==> forall j :: 0 <= j < i ==> !Same(ts, k, cur[j]) && !Above(h, ts, k, cur[j]))
  }

  lemma {:induction false} ScannedEnd(h: Hierarchy, ts: seq<Entry>, k: nat, l: seq<nat>, cur: seq<nat>, add: bool)
    requires k < |ts| && Listed(h, ts, k) && Maximal(h, ts, k, l) && Scanned(h, ts, k, l, cur, |cur|, add)
    ensures k !in cur && Maximal(h, ts, k + 1, if add then cur + [k] else cur)
  {
    var next := if add then cur + [k] else cur;
    forall x: nat ensures x in next <==> Kept(h, ts, k + 1, x) {
      if x == k {
        NewKept(h, ts, k, l, cur, add);
      } else {
        OldKept(h, ts, k, l, cur, x);
      }
    }
    assert k !in cur;
  }

  lemma {:induction false} OldKept(h: Hierarchy, ts: seq<Entry>, k: nat, l: seq<nat>, cur: seq<nat>, x: nat)
    requires k < |ts| && Listed(h, ts, k) && Maximal(h, ts, k, l) && x != k
    requires (forall y :: y in cur ==> y in l) && (forall y :: y in l && !Above(h, ts, y, k) ==> y in cur)
    requires forall j :: 0 <= j < |cur| ==> !Above(h, ts, cur[j], k)
    ensures x in cur <==> Kept(h, ts, k + 1, x)
  {
    assert x in l <==> Kept(h, ts, k, x);
    assert x < k ==> (Kept(h, ts, k + 1, x) <==> Kept(h, ts, k, x) && !Above(h, ts, x, k));
    assert x in cur ==> !Above(h, ts, x, k);
  }

  lemma {:induction false} NewKept(h: Hierarchy, ts: seq<Entry>, k: nat, l: seq<nat>, cur: seq<nat>, add: bool)
    requires k < |ts| && Listed(h, ts, k) && Maximal(h, ts, k, l) && Scanned(h, ts, k, l, cur, |cur|, add)
    ensures k !in cur && (add <==> Kept(h, ts, k + 1, k))
  {
    if !Kept(h, ts, k + 1, k) {
      var j: nat :| j < k && Listed(h, ts, j) && (Same(ts, k, j) || Above(h, ts, k, j));
      assert Same(ts, k, j) ==> ts[k].cls == ts[j].cls;
      assert IsSubclass(h, ts[k].cls, ts[j].cls);
      var x := KeptAbove(h, ts, k, j);
      SubclassTransitive(h, ts[k].cls, ts[j].cls, ts[x].cls);
      assert x in l && (Same(ts, k, x) || Above(h, ts, k, x));
      if Above(h, ts, x, k) { NumberedDown(h, ts[x].cls, ts[k].cls); }
      assert Above(h, ts, k, x) ==> ts[x].cls < ts[k].cls by {
        if Above(h, ts, k, x) { NumberedDown(h, ts[k].cls, ts[x].cls); }
      }
      assert x in cur;
    }
  }

  /** One place of the scan: what stands there stays, or makes room for the last one. */
  lemma {:induction false} ScannedNext(h: Hierarchy, ts: seq<Entry>, k: nat, l: seq<nat>, cur: seq<nat>, i: nat,
                                       add: bool)
    requires Scanned(h, ts, k, l, cur, i, add) && i < |cur| && k < |ts| && Listed(h, ts, k)
    ensures var last := |cur| - 1;
            && (Above(h, ts, cur[i], k) ==> Scanned(h, ts, k, l, cur[i := cur[last]][..last], i, add))
            && (!Above(h, ts, cur[i], k) ==>
                  Scanned(h, ts, k, l, cur, i + 1, add && !Same(ts, k, cur[i]) && !Above(h, ts, k, cur[i])))
  {
    var last := |cur| - 1;
    var less := cur[i := cur[last]][..last];
    if Above(h, ts, cur[i], k) {
      forall x | x in cur && x != cur[i] ensures x in less {
        var j :| 0 <= j < |cur| && cur[j] == x;
        if j < last { assert less[j] == x; } else { assert less[i] == x; }
      }
    }
  }

  lemma {:induction false} UnlistedEntry(h: Hierarchy, ts: seq<Entry>, k: nat)
    requires k < |ts|
    ensures !Listed(h, ts, k) ==> forall x: nat :: Kept(h, ts, k + 1, x) <==> Kept(h, ts, k, x)
  {
  }

  /** The list has an entry of the same class, or one above. */
  ghost predicate Met(ts: seq<Entry>, k: nat, l: seq<nat>) {
    exists j :: 0 <= j < |l| && Same(ts, k, l[j])
  }

  ghost predicate Under(h: Hierarchy, ts: seq<Entry>, k: nat, l: seq<nat>) {
    exists j :: 0 <= j < |l| && Above(h, ts, k, l[j])
  }

  /** What the list tells about entry k: whether it is a duplicate, and whether an earlier entry is above it. */
  lemma {:induction false} ListTells(h: Hierarchy, ts: seq<Entry>, k: nat, l: seq<nat>)
    requires k < |ts| && Listed(h, ts, k) && Maximal(h, ts, k, l)
    ensures Met(ts, k, l) <==> Repeated(h, ts, k)
    ensures Under(h, ts, k, l) <==> exists j: nat :: j < k && Listed(h, ts, j) && Above(h, ts, k, j)
  {
    hide Checked;
    forall j: nat | j < k && Listed(h, ts, j) && (Same(ts, k, j) || Above(h, ts, k, j))
      ensures Met(ts, k, l) || Under(h, ts, k, l)
      ensures Above(h, ts, k, j) ==> Under(h, ts, k, l)
    {
      var x := KeptAbove(h, ts, k, j);
      assert x in l;
      if Above(h, ts, k, j) {
        SubclassTransitive(h, ts[k].cls, ts[j].cls, ts[x].cls);
        NumberedDown(h, ts[k].cls, ts[j].cls);
        if ts[j].cls != ts[x].cls { NumberedDown(h, ts[j].cls, ts[x].cls); }
      }
      var i :| 0 <= i < |l| && l[i] == x;
    }
    forall i | 0 <= i < |l| ensures Kept(h, ts, k, l[i]) {
      assert l[i] in l;
    }
  }

  /** What is reported after entry k, among the entries that are listed. */
  lemma {:induction false} ListedEntry(h: Hierarchy, ts: seq<Entry>, k: nat, l: seq<nat>, cur: seq<nat>, add: bool,
                                       redundant: set<nat>, now: set<nat>)
    requires k < |ts| && Listed(h, ts, k) && Maximal(h, ts, k, l)
             && Maximal(h, ts, k + 1, if add then cur + [k] else cur)
    requires k !in cur && (forall x :: x in cur ==> x in l)
    requires forall x: nat :: x in redundant <==> x < k && Listed(h, ts, x) && !Kept(h, ts, k, x) && !Repeated(h, ts, x)
    requires now == redundant + Gone(l, cur) + (if Under(h, ts, k, l) then {k} else {})
    ensures forall x: nat :: x in now <==>
              x < k + 1 && Listed(h, ts, x) && !Kept(h, ts, k + 1, x) && !Repeated(h, ts, x)
  {
    hide Checked, Listed, Above, Distinct;
    ListTells(h, ts, k, l);
    var next := if add then cur + [k] else cur;
    forall x: nat ensures x < k && Kept(h, ts, k + 1, x) ==> Kept(h, ts, k, x) {}
    forall x: nat ensures x < k && Kept(h, ts, k, x) ==> !Repeated(h, ts, x) {}
    forall x: nat
      ensures x in now <==>
                x < k + 1 && Listed(h, ts, x) && !Kept(h, ts, k + 1, x) && !Repeated(h, ts, x)
    {
      assert x in next <==> Kept(h, ts, k + 1, x);
      assert x in l <==> Kept(h, ts, k, x);
      assert x != k ==> (x in cur <==> x in next);
      if x == k { NotItsOwn(h, ts, k); }
    }
  }

  /** Among the first k + 1 entries, k is not to keep if an earlier one is above it or names its class. */
  lemma {:induction false} NotItsOwn(h: Hierarchy, ts: seq<Entry>, k: nat)
    requires k < |ts| && Listed(h, ts, k)
    ensures !Kept(h, ts, k + 1, k) && !Repeated(h, ts, k) <==>
            exists j: nat :: j < k && Listed(h, ts, j) && Above(h, ts, k, j)
  {
  }

  lemma {:induction false} ScannedMember(h: Hierarchy, ts: seq<Entry>, k: nat, l: seq<nat>, cur: seq<nat>, i: nat,
                                         add: bool)
    requires Scanned(h, ts, k, l, cur, i, add) && i < |cur|
    ensures cur[i] in l && Distinct(cur)
  {
  }

  // ---- What is reported

  /** Entries reported as duplicates, and as redundant; and the other reports. */
  function Duplicates(reports: set<Report>): set<nat> {
    set r | r in reports && r.Duplicate? :: r.index
  }

  function Redundants(reports: set<Report>): set<nat> {
    set r | r in reports && r.Redundant? :: r.index
  }

  function Others(reports: set<Report>): set<Report> {
    set r | r in reports && !r.Duplicate? && !r.Redundant?
  }

  function Gone(l: seq<nat>, cur: seq<nat>): set<nat> {
    set x | x in l && x !in cur
  }

  lemma {:induction false} ReportedIndices(reports: set<Report>, i: nat)
    ensures i in Duplicates(reports) <==> Duplicate(i) in reports
    ensures i in Redundants(reports) <==> Redundant(i) in reports
  {
  }

  lemma {:induction false} OneMoreReport(reports: set<Report>, r: Report)
    ensures Duplicates(reports + {r}) == Duplicates(reports) + if r.Duplicate? then {r.index} else {}
    ensures Redundants(reports + {r}) == Redundants(reports) + if r.Redundant? then {r.index} else {}
    ensures Others(reports + {r}) == Others(reports) + if r.Duplicate? || r.Redundant? then {} else {r}
  {
    forall i: nat
      ensures i in Duplicates(reports + {r}) <==> i in Duplicates(reports) || r == Duplicate(i)
      ensures i in Redundants(reports + {r}) <==> i in Redundants(reports) || r == Redundant(i)
    {
      ReportedIndices(reports, i);
      ReportedIndices(reports + {r}, i);
    }
  }

  /** Moving the last entry to place i loses entry i alone. */
  lemma {:induction false} OneMoreGone(l: seq<nat>, cur: seq<nat>, i: nat)
    requires Distinct(cur) && i < |cur| && cur[i] in l
    ensures var last := |cur| - 1; Gone(l, cur[i := cur[last]][..last]) == Gone(l, cur) + {cur[i]}
  {
    var last := |cur| - 1;
    var less := cur[i := cur[last]][..last];
    forall x ensures x in less <==> x in cur && x != cur[i] {
      if x in cur && x != cur[i] {
        var j :| 0 <= j < |cur| && cur[j] == x;
        if j < last { assert less[j] == x; } else { assert less[i] == x; }
      }
    }
  }

  lemma {:induction false} NotBothAbove(h: Hierarchy, ts: seq<Entry>, k: nat, j: nat)
    ensures !(Above(h, ts, k, j) && Above(h, ts, j, k))
  {
    if Above(h, ts, k, j) {
      NumberedDown(h, ts[k].cls, ts[j].cls);
      if IsSubclass(h, ts[j].cls, ts[k].cls) { NumberedDown(h, ts[j].cls, ts[k].cls); }
    }
  }

  lemma {:induction false} OnePlaceMore(h: Hierarchy, ts: seq<Entry>, k: nat, cur: seq<nat>, i: nat)
    requires i < |cur|
    ensures Met(ts, k, cur[..i + 1]) <==> Met(ts, k, cur[..i]) || Same(ts, k, cur[i])
    ensures Under(h, ts, k, cur[..i + 1]) <==> Under(h, ts, k, cur[..i]) || Above(h, ts, k, cur[i])
  {
    assert forall j :: 0 <= j < i ==> cur[..i + 1][j] == cur[..i][j];
    assert cur[..i + 1][i] == cur[i];
  }

  /** The entries gone are neither of k's class nor above it. */
  lemma {:induction false} SameVerdict(h: Hierarchy, ts: seq<Entry>, k: nat, l: seq<nat>, cur: seq<nat>, add: bool)
    requires Scanned(h, ts, k, l, cur, |cur|, add)
    ensures Met(ts, k, cur) <==> Met(ts, k, l)
    ensures Under(h, ts, k, cur) <==> Under(h, ts, k, l)
  {
    forall x | x in l && (Same(ts, k, x) || Above(h, ts, k, x)) ensures x in cur {
      NotBothAbove(h, ts, k, x);
    }
    forall x | x in cur ensures x in l {}
  }

  /** The reports that depend on one entry alone. */
  function Alone(h: Hierarchy, ts: seq<Entry>, n: nat): set<Report>
    requires n <= |ts|
  {
    if n == 0 then {} else
      var k := n - 1;
      Alone(h, ts, k) +
      match ts[k]
      case Bad => {}
      case Interface => {NotAClass(k)}
      case OtherClass => {NotThrowable(k)}
      case Throwable(c) =>
        if c == EXCEPTION || c == THROWABLE then {OverlyGeneral(k)}
        else if !Checked(h, c) then {Unchecked(k)} else {}
  }

  /** After n entries: the list has the entries to keep, the entries that repeat one of them have been
      reported as duplicates, and the others that were listed as redundant. */
  ghost predicate DoneUpTo(h: Hierarchy, ts: seq<Entry>, n: nat, l: seq<nat>, reports: set<Report>)
    requires n <= |ts|
  {
    && Maximal(h, ts, n, l)
    && (forall k: nat :: k in Duplicates(reports) <==> k < n && Repeated(h, ts, k))
    && (forall k: nat :: k in Redundants(reports) <==>
                         k < n && Listed(h, ts, k) && !Kept(h, ts, n, k) && !Repeated(h, ts, k))
    && Others(reports) == Alone(h, ts, n)
  }

  lemma {:induction false} UnlistedDone(h: Hierarchy, ts: seq<Entry>, k: nat, l: seq<nat>, before: set<Report>,
                                        reports: set<Report>)
    requires k < |ts| && !Listed(h, ts, k) && DoneUpTo(h, ts, k, l, before)
    requires Duplicates(reports) == Duplicates(before) && Redundants(reports) == Redundants(before)
    requires Others(reports) == Alone(h, ts, k + 1)
    ensures DoneUpTo(h, ts, k + 1, l, reports)
  {
    hide Duplicates, Redundants, Others, Alone, Kept, Listed;
    UnlistedEntry(h, ts, k);
  }

  lemma {:induction false} ListedAlone(h: Hierarchy, ts: seq<Entry>, k: nat)
    requires k < |ts| && Listed(h, ts, k)
    ensures Alone(h, ts, k + 1) == Alone(h, ts, k)
  {
    hide Checked;
  }

  lemma {:induction false} ScannedAll(h: Hierarchy, ts: seq<Entry>, k: nat, l: seq<nat>, cur: seq<nat>, add: bool)
    requires Scanned(h, ts, k, l, cur, |cur|, add)
    ensures forall x :: x in cur ==> x in l
  {
  }

  lemma {:induction false} ListedDone(h: Hierarchy, ts: seq<Entry>, k: nat, l: seq<nat>, cur: seq<nat>, add: bool,
                                      before: set<Report>, reports: set<Report>)
    requires k < |ts| && Listed(h, ts, k) && DoneUpTo(h, ts, k, l, before) && Scanned(h, ts, k, l, cur, |cur|, add)
    requires Duplicates(reports) == Duplicates(before) + (if Met(ts, k, cur) then {k} else {})
    requires Redundants(reports) == Redundants(before) + Gone(l, cur) + (if Under(h, ts, k, cur) then {k} else {})
    requires Others(reports) == Others(before)
    ensures DoneUpTo(h, ts, k + 1, if add then cur + [k] else cur, reports)
  {
    hide Duplicates, Redundants, Others, Maximal, Kept, Repeated, Gone, Met, Under, Scanned, Listed, Alone, Above;
    ScannedEnd(h, ts, k, l, cur, add);
    ScannedAll(h, ts, k, l, cur, add);
    SameVerdict(h, ts, k, l, cur, add);
    ListTells(h, ts, k, l);
    ListedEntry(h, ts, k, l, cur, add, Redundants(before), Redundants(reports));
    ListedAlone(h, ts, k);
    forall x: nat ensures x in Duplicates(reports) <==> x < k + 1 && Repeated(h, ts, x) {
      assert x in Duplicates(before) <==> x < k && Repeated(h, ts, x);
      assert x in Duplicates(reports) <==> x in Duplicates(before) || (x == k && Repeated(h, ts, k));
    }
    assert Maximal(h, ts, k + 1, if add then cur + [k] else cur);
  }

  lemma {:induction false} AloneMore(h: Hierarchy, ts: seq<Entry>, k: nat, l: seq<nat>, reports: set<Report>)
    requires k < |ts| && DoneUpTo(h, ts, k, l, reports)
    ensures var more := Alone(h, ts, k + 1);
            match ts[k]
            case Bad => more == Others(reports)
            case Interface => more == Others(reports) + {NotAClass(k)}
            case OtherClass => more == Others(reports) + {NotThrowable(k)}
            case Throwable(c) =>
              if c == EXCEPTION || c == THROWABLE then more == Others(reports) + {OverlyGeneral(k)}
              else !Checked(h, c) ==> more == Others(reports) + {Unchecked(k)}
  {
  }

  class ThrowsChecker {
    const h: Hierarchy
    const ts: seq<Entry>
    var throwsList: seq<nat>
    var reports: set<Report>

    constructor (h: Hierarchy, ts: seq<Entry>)
      ensures this.h == h && this.ts == ts && throwsList == [] && reports == {}
    {
      this.h, this.ts := h, ts;
      throwsList, reports := [], {};
    }

    ghost predicate Done(n: nat)
      reads this
      requires n <= |ts|
    {
      DoneUpTo(h, ts, n, throwsList, reports)
    }

    /** The reports about entry k and the entries gone from the list l, when the first i places have been
        passed. */
    ghost predicate ReportsSoFar(before: set<Report>, k: nat, l: seq<nat>, i: nat)
      reads this
    {
      && i <= |throwsList|
      && Duplicates(reports) == Duplicates(before) + (if Met(ts, k, throwsList[..i]) then {k} else {})
      && Redundants(reports) == Redundants(before) + Gone(l, throwsList)
         + (if Under(h, ts, k, throwsList[..i]) then {k} else {})
      && Others(reports) == Others(before)
    }

    /** Prunes the list by entry k in place. The removed entry's place is taken by the last, which is then
        looked at next. */
    method Scan(k: nat) returns (add: bool)
      requires k < |ts| && Listed(h, ts, k) && Maximal(h, ts, k, throwsList)
      modifies this
      ensures Scanned(h, ts, k, old(throwsList), throwsList, |throwsList|, add)
      ensures ReportsSoFar(old(reports), k, old(throwsList), |throwsList|)
    {
      hide Duplicates, Redundants, Others;
      add := true;
      var i: nat := 0;
      while i < |throwsList|
        invariant Scanned(h, ts, k, old(throwsList), throwsList, i, add)
        invariant ReportsSoFar(old(reports), k, old(throwsList), i)
        decreases |throwsList| - i
      {
        add, i := ScanOne(k, i, add, old(throwsList), old(reports));
      }
    }

    method ScanOne(k: nat, i: nat, add: bool, ghost l: seq<nat>, ghost before: set<Report>)
      returns (stillAdd: bool, next: nat)
      requires k < |ts| && Listed(h, ts, k) && (forall x :: x in l ==> Listed(h, ts, x))
      requires i < |throwsList| && Scanned(h, ts, k, l, throwsList, i, add) && ReportsSoFar(before, k, l, i)
      modifies this
      ensures Scanned(h, ts, k, l, throwsList, next, stillAdd) && |throwsList| - next < old(|throwsList|) - i
      ensures ReportsSoFar(before, k, l, next)
    {
      hide Scanned, Duplicates, Redundants, Others, Gone, Checked, Distinct, Met, Under;
      ghost var cur := throwsList;
      var other := throwsList[i];
      ScannedMember(h, ts, k, l, cur, i, add);
      ScannedNext(h, ts, k, l, cur, i, add);
      NotBothAbove(h, ts, k, other);
      OnePlaceMore(h, ts, k, cur, i);
      if ts[other] == ts[k] {
        OneMoreReport(reports, Duplicate(k));
        reports := reports + {Duplicate(k)};
        return false, i + 1;
      }
      if IsSubclass(h, ts[k].cls, ts[other].cls) {
        OneMoreReport(reports, Redundant(k));
        reports := reports + {Redundant(k)};
        return false, i + 1;
      }
      if IsSubclass(h, ts[other].cls, ts[k].cls) {
        OneMoreReport(reports, Redundant(other));
        OneMoreGone(l, cur, i);
        reports := reports + {Redundant(other)};
        var last := |throwsList| - 1;
        throwsList := throwsList[i := throwsList[last]];
        throwsList := throwsList[..last];
        assert throwsList[..i] == cur[..i];
        return add, i;
      }
      return add, i + 1;
    }

    /** CheckThrow, pedantic: one entry of the throws clause. */
    method CheckThrow(k: nat)
      requires k < |ts| && Done(k)
      modifies this
      ensures Done(k + 1)
    {
      hide DoneUpTo, Duplicates, Redundants, Others, Alone;
      ghost var before := reports;
      AloneMore(h, ts, k, throwsList, before);
      match ts[k] {
        case Bad =>
        case Interface => Report(NotAClass(k));
        case OtherClass => Report(NotThrowable(k));
        case Throwable(c) =>
          if c == EXCEPTION || c == THROWABLE {
            Report(OverlyGeneral(k));
          } else if !Checked(h, c) {
            Report(Unchecked(k));
          } else {
            CheckListed(k);
            return;
          }
      }
      UnlistedDone(h, ts, k, throwsList, before, reports);
    }

    method CheckListed(k: nat)
      requires k < |ts| && Listed(h, ts, k) && Done(k)
      modifies this
      ensures Done(k + 1)
    {
      hide Duplicates, Redundants, Others, Kept, Repeated, Gone, Checked, Met, Under, Alone;
      ghost var before, list := reports, throwsList;
      var add := Scan(k);
      assert throwsList[..|throwsList|] == throwsList;
      ListedDone(h, ts, k, list, throwsList, add, before, reports);
      if add {
        throwsList := throwsList + [k];
      }
    }

    method Report(r: Report)
      requires !r.Duplicate? && !r.Redundant?
      modifies this`reports
      ensures Duplicates(reports) == Duplicates(old(reports)) && Redundants(reports) == Redundants(old(reports))
      ensures Others(reports) == Others(old(reports)) + {r}
    {
      OneMoreReport(reports, r);
      reports := reports + {r};
    }
  }

  /** The throws clause of a method: the list ends up with exactly the first entries of the topmost checked
      classes. Each other checked entry is reported once: as a duplicate if it repeats an earlier class with no
      superclass before it, and otherwise as redundant. */
  method CheckThrowsClause(h: Hierarchy, ts: seq<Entry>) returns (throwsList: seq<nat>, reports: set<Report>)
    ensures Maximal(h, ts, |ts|, throwsList)
    ensures forall k: nat :: Duplicate(k) in reports <==> Repeated(h, ts, k)
    ensures forall k: nat :: Redundant(k) in reports <==> Listed(h, ts, k) && k !in throwsList && !Repeated(h, ts, k)
    ensures Others(reports) == Alone(h, ts, |ts|)
  {
    var checker := new ThrowsChecker(h, ts);
    for k := 0 to |ts|
      invariant checker.h == h && checker.ts == ts && fresh(checker) && checker.Done(k)
    {
      checker.CheckThrow(k);
    }
    throwsList, reports := checker.throwsList, checker.reports;
    forall k: nat
      ensures Duplicate(k) in reports <==> Repeated(h, ts, k)
      ensures Redundant(k) in reports <==> Listed(h, ts, k) && k !in throwsList && !Repeated(h, ts, k)
    {
      ReportedIndices(reports, k);
    }
  }

  /** What the list of entries to keep means for their classes: no two are related, and every checked class
      named that is not diverted has one of them above it or equal to it. */
  lemma {:induction false} MaximalMeaning(h: Hierarchy, ts: seq<Entry>, l: seq<nat>)
    requires Maximal(h, ts, |ts|, l)
    ensures forall i, j :: i in l && j in l && i != j ==> !IsSubclass(h, ts[i].cls, ts[j].cls)
    ensures forall k: nat :: Listed(h, ts, k) ==> exists x :: x in l && IsSubclass(h, ts[k].cls, ts[x].cls)
  {
    forall i, j | i in l && j in l && i != j ensures !IsSubclass(h, ts[i].cls, ts[j].cls) {
      assert Kept(h, ts, |ts|, i) && Kept(h, ts, |ts|, j);
      assert !Above(h, ts, i, j);
      assert if i < j then !Same(ts, j, i) else !Same(ts, i, j);
    }
    forall k: nat | Listed(h, ts, k) ensures exists x :: x in l && IsSubclass(h, ts[k].cls, ts[x].cls) {
      var x := KeptAbove(h, ts, |ts|, k);
      assert x in l;
    }
  }
}
