/**
 * The reporting views, each a fold over one snapshot of the record store:
 * the reporter's approved total, the per-day view with its daily total, the
 * administrator's per-user status counts with grand totals, the reporter's
 * list of days, and the administrator's submissions grouped by user and day.
 */
module Reports {
  import opened Text
  import opened Records
  import opened Grouping
  import opened Wrappers

  // ---------------------------------------------------------------- approved total

  /** A record that counts toward `user`'s approved total. */
  predicate CountsToward(r: Record, user: string) {
    r.telegramUser == user && r.status == ACCEPTED
  }

  /** The user's accepted records, in snapshot order. */
  function ApprovedOf(rs: seq<Record>, user: string): seq<Record> {
    if |rs| == 0 then []
    else ApprovedOf(rs[..|rs| - 1], user) + (if CountsToward(rs[|rs| - 1], user) then [rs[|rs| - 1]] else [])
  }

  /** The sum of the amounts. */
  function SumAmounts(rs: seq<Record>): nat {
    if |rs| == 0 then 0 else SumAmounts(rs[..|rs| - 1]) + rs[|rs| - 1].amount
  }

  /** The figure "Total Amount" reports to a reporter. */
  function ApprovedTotal(rs: seq<Record>, user: string): nat {
    SumAmounts(ApprovedOf(rs, user))
  }

  lemma {:induction false} SumAmountsConcat(a: seq<Record>, b: seq<Record>)
    ensures SumAmounts(a + b) == SumAmounts(a) + SumAmounts(b)
    decreases |b|
  {
    if |b| > 0 {
      assert (a + b)[..|a + b| - 1] == a + b[..|b| - 1];
      SumAmountsConcat(a, b[..|b| - 1]);
    } else {
      assert a + b == a;
    }
  }

  lemma {:induction false} ApprovedOfConcat(a: seq<Record>, b: seq<Record>, user: string)
    ensures ApprovedOf(a + b, user) == ApprovedOf(a, user) + ApprovedOf(b, user)
    decreases |b|
  {
    if |b| > 0 {
      assert (a + b)[..|a + b| - 1] == a + b[..|b| - 1];
      ApprovedOfConcat(a, b[..|b| - 1], user);
    } else {
      assert a + b == a;
    }
  }

  /** The approved total of two snapshots laid end to end is the sum of their totals. */
  lemma ApprovedTotalConcat(a: seq<Record>, b: seq<Record>, user: string)
    ensures ApprovedTotal(a + b, user) == ApprovedTotal(a, user) + ApprovedTotal(b, user)
  {
    ApprovedOfConcat(a, b, user);
    SumAmountsConcat(ApprovedOf(a, user), ApprovedOf(b, user));
  }

  /**
   * Wherever a record sits in the snapshot, it adds its amount to `user`'s
   * approved total when it is `user`'s and accepted, and nothing otherwise.
   */
  lemma ApprovedTotalContribution(a: seq<Record>, r: Record, b: seq<Record>, user: string)
    ensures ApprovedTotal(a + [r] + b, user)
            == ApprovedTotal(a + b, user) + (if CountsToward(r, user) then r.amount else 0)
  {
    ApprovedTotalSingle(r, user);
    ApprovedTotalConcat(a + [r], b, user);
    ApprovedTotalConcat(a, [r], user);
    ApprovedTotalConcat(a, b, user);
  }

  lemma ApprovedTotalSingle(r: Record, user: string)
    ensures ApprovedTotal([r], user) == if CountsToward(r, user) then r.amount else 0
  {
    assert [r][..0] == [];
    assert ApprovedOf([r], user) == ApprovedOf([], user) + (if CountsToward(r, user) then [r] else []);
    assert SumAmounts([r]) == SumAmounts([]) + r.amount;
  }

  // ---------------------------------------------------------------- one day

  /** A record of `user` whose date id begins with `day`. */
  predicate OnDay(r: Record, user: string, day: string) {
    r.telegramUser == user && StartsWith(r.date, day)
  }

  /** The rows the per-day view lists, in snapshot order. */
  function DayRows(rs: seq<Record>, user: string, day: string): seq<Record> {
    if |rs| == 0 then []
    else DayRows(rs[..|rs| - 1], user, day) + (if OnDay(rs[|rs| - 1], user, day) then [rs[|rs| - 1]] else [])
  }

  /** The `forEach` of the per-day view: accepted amounts accumulate, any other status adds nothing. */
  function DayTotal(rows: seq<Record>): nat {
    if |rows| == 0 then 0
    else DayTotal(rows[..|rows| - 1]) + (if rows[|rows| - 1].status == ACCEPTED then rows[|rows| - 1].amount else 0)
  }

  /** The records whose date id starts with `day`, whoever they belong to. */
  function DatedOn(rs: seq<Record>, day: string): seq<Record> {
    if |rs| == 0 then []
    else DatedOn(rs[..|rs| - 1], day) + (if StartsWith(rs[|rs| - 1].date, day) then [rs[|rs| - 1]] else [])
  }

  /**
   * The daily total is the approved total taken over that day's records only:
   * the same sum, with the date-prefix condition added.
   */
  lemma {:induction false} DailyTotalIsApprovedTotalOfDay(rs: seq<Record>, user: string, day: string)
    ensures DayTotal(DayRows(rs, user, day)) == ApprovedTotal(DatedOn(rs, day), user)
    decreases |rs|
  {
    if |rs| > 0 {
      DailyTotalIsApprovedTotalOfDay(rs[..|rs| - 1], user, day);
      DayTotalSnoc(rs, user, day);
      DatedTotalSnoc(rs, user, day);
    }
  }

  /**
   * A day with one accepted and one pending record of the same reporter lists
   * both rows, but its total is the accepted amount alone.
   */
  lemma DayTotalSkipsPending(accepted: Record, pending: Record, day: string)
    requires accepted.telegramUser == pending.telegramUser
    requires StartsWith(accepted.date, day) && StartsWith(pending.date, day)
    requires accepted.status == ACCEPTED && pending.status == PENDING
    ensures DayRows([accepted, pending], accepted.telegramUser, day) == [accepted, pending]
    ensures DayTotal([accepted, pending]) == accepted.amount
  {
    var user := accepted.telegramUser;
    assert [accepted, pending][..1] == [accepted];
    assert [accepted][..0] == [];
    assert DayRows([accepted], user, day) == [accepted];
    assert DayTotal([accepted]) == accepted.amount;
  }

  /** What the last record adds to a day's total: its amount if it is the user's, accepted and on that day. */
  function DayShare(r: Record, user: string, day: string): nat {
    if CountsToward(r, user) && StartsWith(r.date, day) then r.amount else 0
  }

  lemma DayTotalSnoc(rs: seq<Record>, user: string, day: string)
    requires |rs| > 0
    ensures DayTotal(DayRows(rs, user, day))
            == DayTotal(DayRows(rs[..|rs| - 1], user, day)) + DayShare(rs[|rs| - 1], user, day)
  {
    var r, rows := rs[|rs| - 1], DayRows(rs[..|rs| - 1], user, day);
    if OnDay(r, user, day) {
      assert DayRows(rs, user, day) == rows + [r];
      assert (rows + [r])[..|rows|] == rows;
    } else {
      assert DayRows(rs, user, day) == rows;
      assert DayShare(r, user, day) == 0;
    }
  }

  lemma DatedTotalSnoc(rs: seq<Record>, user: string, day: string)
    requires |rs| > 0
    ensures ApprovedTotal(DatedOn(rs, day), user)
            == ApprovedTotal(DatedOn(rs[..|rs| - 1], day), user) + DayShare(rs[|rs| - 1], user, day)
  {
    var r, dated := rs[|rs| - 1], DatedOn(rs[..|rs| - 1], day);
    if StartsWith(r.date, day) {
      assert DatedOn(rs, day) == dated + [r];
      ApprovedTotalConcat(dated, [r], user);
      ApprovedTotalSingle(r, user);
    } else {
      assert DatedOn(rs, day) == dated;
      assert DayShare(r, user, day) == 0;
    }
  }

  // ---------------------------------------------------------------- total info

  /** Per-user counters of the administrator's "Total Info". */
  datatype Counts = Counts(accepted: nat, canceled: nat, paid: nat)

  const NoCounts := Counts(0, 0, 0)

  function Add(a: Counts, b: Counts): Counts {
    Counts(a.accepted + b.accepted, a.canceled + b.canceled, a.paid + b.paid)
  }

  /** The three `if`s on `i.status`: one count for its own status, none for pending or anything else. */
  function Tally(status: string): Counts {
    Counts(if status == ACCEPTED then 1 else 0, if status == CANCELED then 1 else 0, if status == PAID then 1 else 0)
  }

  /** The key a record is counted under: its user, or `unknown` when that cell is empty. */
  function UserKey(r: Record): string {
    if r.telegramUser == "" then "unknown" else r.telegramUser
  }

  /** How many records of user key `u` have status `status` (counted independently of the fold). */
  function CountOf(rs: seq<Record>, u: string, status: string): nat {
    if |rs| == 0 then 0
    else CountOf(rs[..|rs| - 1], u, status)
         + (if UserKey(rs[|rs| - 1]) == u && rs[|rs| - 1].status == status then 1 else 0)
  }

  /** How many records of any user have status `status`. */
  function CountAll(rs: seq<Record>, status: string): nat {
    if |rs| == 0 then 0
    else CountAll(rs[..|rs| - 1], status) + (if rs[|rs| - 1].status == status then 1 else 0)
  }

  predicate Distinct<T(==)>(xs: seq<T>) {
    forall i, j :: 0 <= i < j < |xs| ==> xs[i] != xs[j]
  }

  /**
   * The per-user counters of "Total Info" and the three grand totals. `users`
   * lists each counted user key once, in first-seen order; the order the
   * handler's `for...in` shows them in is not modelled.
   */
  datatype Stats = Stats(users: seq<string>, perUser: map<string, Counts>, grand: Counts)

  /**
   * "Total Info": every user key that occurs gets counters, also when all its
   * records are pending; each counter is the number of that user's records with
   * that status, and each grand total the number of such records overall.
   */
  function TotalInfo(rs: seq<Record>): (s: Stats)
    ensures Distinct(s.users)
    ensures forall u :: u in s.users <==> u in s.perUser
    ensures s.grand == Counts(CountAll(rs, ACCEPTED), CountAll(rs, CANCELED), CountAll(rs, PAID))
  {
    if |rs| == 0 then Stats([], map[], NoCounts)
    else
      var s := TotalInfo(rs[..|rs| - 1]);
      var r := rs[|rs| - 1];
      var k := UserKey(r);
      var grand := Add(s.grand, Tally(r.status));
      if k in s.perUser then Stats(s.users, s.perUser[k := Add(s.perUser[k], Tally(r.status))], grand)
      else
        assert k !in s.users;
        Stats(s.users + [k], s.perUser[k := Tally(r.status)], grand)
  }

  lemma KeysOfSnoc<T>(xs: seq<T>, key: T -> string)
    requires |xs| > 0
    ensures KeysOf(xs, key) == KeysOf(xs[..|xs| - 1], key) + {key(xs[|xs| - 1])}
  {
    var init := xs[..|xs| - 1];
    forall i | 0 <= i < |init| ensures init[i] == xs[i] { }
  }

  /** "Total Info" lists exactly the user keys that occur, pending-only users included. */
  lemma {:induction false} TotalInfoUsers(rs: seq<Record>)
    ensures TotalInfo(rs).perUser.Keys == KeysOf(rs, UserKey)
    decreases |rs|
  {
    if |rs| > 0 {
      TotalInfoUsers(rs[..|rs| - 1]);
      KeysOfSnoc(rs, UserKey);
    }
  }

  /** Each user's counter for a status is the number of that user's records with that status. */
  lemma {:induction false} TotalInfoCounts(rs: seq<Record>, u: string)
    ensures u in TotalInfo(rs).perUser ==>
              TotalInfo(rs).perUser[u]
              == Counts(CountOf(rs, u, ACCEPTED), CountOf(rs, u, CANCELED), CountOf(rs, u, PAID))
    decreases |rs|
  {
    if |rs| > 0 && u in TotalInfo(rs).perUser {
      var init, r := rs[..|rs| - 1], rs[|rs| - 1];
      var s := TotalInfo(init);
      if u in s.perUser {
        TotalInfoCounts(init, u);
      } else {
        assert u == UserKey(r);
        TotalInfoUsers(init);
        CountOfAbsent(init, u, ACCEPTED);
        CountOfAbsent(init, u, CANCELED);
        CountOfAbsent(init, u, PAID);
      }
    }
  }

  lemma {:induction false} CountOfAbsent(rs: seq<Record>, u: string, status: string)
    requires u !in KeysOf(rs, UserKey)
    ensures CountOf(rs, u, status) == 0
    decreases |rs|
  {
    if |rs| > 0 {
      KeysOfSnoc(rs, UserKey);
      CountOfAbsent(rs[..|rs| - 1], u, status);
    }
  }

  /** The counters of `users` added up, in their listing order. */
  function SumOver(users: seq<string>, m: map<string, Counts>): Counts
    requires forall i :: 0 <= i < |users| ==> users[i] in m
  {
    if |users| == 0 then NoCounts
    else Add(SumOver(users[..|users| - 1], m), m[users[|users| - 1]])
  }

  lemma {:induction false} SumOverFresh(users: seq<string>, m: map<string, Counts>, k: string, v: Counts)
    requires forall i :: 0 <= i < |users| ==> users[i] in m
    requires k !in users
    ensures SumOver(users, m[k := v]) == SumOver(users, m)
    decreases |users|
  {
    if |users| > 0 {
      SumOverFresh(users[..|users| - 1], m, k, v);
    }
  }

  lemma {:induction false} SumOverBump(users: seq<string>, m: map<string, Counts>, k: string, d: Counts)
    requires forall i :: 0 <= i < |users| ==> users[i] in m
    requires Distinct(users) && k in users
    ensures SumOver(users, m[k := Add(m[k], d)]) == Add(SumOver(users, m), d)
    decreases |users|
  {
    var init := users[..|users| - 1];
    if users[|users| - 1] == k {
      assert k !in init;
      SumOverFresh(init, m, k, Add(m[k], d));
    } else {
      assert k in init by {
        var i :| 0 <= i < |users| && users[i] == k;
        assert i < |users| - 1 && init[i] == k;
      }
      SumOverBump(init, m, k, d);
    }
  }

  /** Each grand total is the sum of the per-user counters of the same status. */
  lemma {:induction false} GrandTotalIsSumOfUsers(rs: seq<Record>)
    ensures SumOver(TotalInfo(rs).users, TotalInfo(rs).perUser) == TotalInfo(rs).grand
    decreases |rs|
  {
    if |rs| > 0 {
      var init, r := rs[..|rs| - 1], rs[|rs| - 1];
      var s := TotalInfo(init);
      GrandTotalIsSumOfUsers(init);
      var k := UserKey(r);
      if k in s.perUser {
        SumOverBump(s.users, s.perUser, k, Tally(r.status));
      } else {
        SumOverFresh(s.users, s.perUser, k, Tally(r.status));
        assert (s.users + [k])[..|s.users|] == s.users;
      }
    }
  }

  /**
   * The names of the properties every JavaScript object inherits, except
   * `__proto__`: reading `userStats[name]` for one of them yields a function,
   * which is truthy.
   */
  const ObjectPrototypeMembers: set<string> :=
    {"constructor", "hasOwnProperty", "isPrototypeOf", "propertyIsEnumerable", "toLocaleString",
     "toString", "valueOf", "__defineGetter__", "__defineSetter__", "__lookupGetter__", "__lookupSetter__"}

  /**
   * "Total Info" as the handler computes it on a plain object: for a user key
   * named like an inherited member, `!userStats[user]` is false, no own counter
   * is created and the increments land on the inherited function, so that user
   * is never listed while the grand totals still count their records.
   */
  function TotalInfoAsWritten(rs: seq<Record>): (s: Stats)
    ensures s.perUser == WithoutInherited(TotalInfo(rs).perUser)
    ensures Distinct(s.users)
    ensures forall u :: u in s.users <==> u in s.perUser
    ensures s.grand == TotalInfo(rs).grand
  {
    if |rs| == 0 then Stats([], map[], NoCounts)
    else
      var s := TotalInfoAsWritten(rs[..|rs| - 1]);
      var r := rs[|rs| - 1];
      var k := UserKey(r);
      var grand := Add(s.grand, Tally(r.status));
      WithoutInheritedStep(TotalInfo(rs[..|rs| - 1]).perUser, TotalInfo(rs).perUser, k, Tally(r.status));
      if k in ObjectPrototypeMembers then Stats(s.users, s.perUser, grand)
      else if k in s.perUser then Stats(s.users, s.perUser[k := Add(s.perUser[k], Tally(r.status))], grand)
      else
        assert k !in s.users;
        Stats(s.users + [k], s.perUser[k := Tally(r.status)], grand)
  }

  /** The counters of the users not named like an inherited member. */
  function WithoutInherited(perUser: map<string, Counts>): map<string, Counts> {
    map u | u in perUser && u !in ObjectPrototypeMembers :: perUser[u]
  }

  /** Counting one more record for `k` commutes with dropping the inherited names. */
  lemma WithoutInheritedStep(p: map<string, Counts>, q: map<string, Counts>, k: string, t: Counts)
    requires q == if k in p then p[k := Add(p[k], t)] else p[k := t]
    ensures var w := WithoutInherited(p);
            WithoutInherited(q)
            == if k in ObjectPrototypeMembers then w
               else if k in w then w[k := Add(w[k], t)] else w[k := t]
  {
    var w := WithoutInherited(p);
    if k in ObjectPrototypeMembers {
      assert WithoutInherited(q).Keys == w.Keys;
    } else if k in w {
      assert WithoutInherited(q).Keys == w.Keys;
    } else {
      assert WithoutInherited(q).Keys == w.Keys + {k};
    }
  }

  /** When no user key collides with an inherited member, the handler's fold and the model agree. */
  lemma {:induction false} TotalInfoAsWrittenAgrees(rs: seq<Record>)
    requires forall i :: 0 <= i < |rs| ==> UserKey(rs[i]) !in ObjectPrototypeMembers
    ensures TotalInfoAsWritten(rs) == TotalInfo(rs)
    decreases |rs|
  {
    if |rs| > 0 {
      TotalInfoAsWrittenAgrees(rs[..|rs| - 1]);
    }
  }

  /**
   * One accepted record of a reporter called `toString`: the handler lists no
   * user at all, yet reports one accepted submission in the grand total.
   */
  lemma TotalInfoAsWrittenLosesUser()
    ensures var rs := [Record("20240101120000", "toString", 42, "@sender1", 100, ACCEPTED)];
            var s := TotalInfoAsWritten(rs);
            s.users == [] && s.grand.accepted == 1 && SumOver(s.users, s.perUser).accepted == 0
  {
    var rs := [Record("20240101120000", "toString", 42, "@sender1", 100, ACCEPTED)];
    assert rs[..0] == [];
  }

  // ---------------------------------------------------------------- list of days

  /** The day of each of the user's records, in snapshot order, repeats included. */
  function DaysOf(rs: seq<Record>, user: string): (ds: seq<string>)
    ensures forall d :: d in ds <==> exists i :: 0 <= i < |rs| && rs[i].telegramUser == user && Day(rs[i].date) == d
    ensures ds == [] <==> forall i :: 0 <= i < |rs| ==> rs[i].telegramUser != user
  {
    if |rs| == 0 then []
    else
      var init, r := rs[..|rs| - 1], rs[|rs| - 1];
      var ds := DaysOf(init, user) + (if r.telegramUser == user then [Day(r.date)] else []);
      assert forall i :: 0 <= i < |init| ==> init[i] == rs[i];
      ds
  }

  /** `[...new Set(xs)]`: the first occurrence of each value, in order. */
  function Dedup(xs: seq<string>): (ys: seq<string>)
    ensures Distinct(ys)
    ensures forall v :: v in ys <==> v in xs
    ensures ys == [] <==> xs == []
  {
    if |xs| == 0 then []
    else
      var init, x := xs[..|xs| - 1], xs[|xs| - 1];
      var d := Dedup(init);
      assert forall v :: v in init ==> v in xs;
      if x in d then d else d + [x]
  }

  predicate Descending(xs: seq<string>) {
    forall i, j :: 0 <= i < j < |xs| ==> LexLessOrEqual(xs[j], xs[i])
  }

  /** Where `x` goes in a descending list: after every element greater than it. */
  function InsertPosition(x: string, s: seq<string>): (k: nat)
    ensures k <= |s|
    ensures forall i :: 0 <= i < k ==> LexLess(x, s[i])
    ensures k < |s| ==> LexLessOrEqual(s[k], x)
  {
    if |s| == 0 || LexLessOrEqual(s[0], x) then 0
    else
      LexLessTotal(x, s[0]);
      1 + InsertPosition(x, s[1..])
  }

  /** One step of the insertion sort: `x` placed into a descending list. */
  function InsertDescending(x: string, s: seq<string>): (r: seq<string>)
    requires Descending(s)
    ensures Descending(r)
    ensures multiset(r) == multiset(s) + multiset{x}
    ensures x !in s && Distinct(s) ==> Distinct(r)
  {
    var k := InsertPosition(x, s);
    var r := s[..k] + [x] + s[k..];
    InsertKeepsOrder(x, s, k);
    InsertKeepsElements(x, s, k);
    r
  }

  lemma InsertKeepsElements(x: string, s: seq<string>, k: nat)
    requires k <= |s|
    ensures multiset(s[..k] + [x] + s[k..]) == multiset(s) + multiset{x}
    ensures x !in s && Distinct(s) ==> Distinct(s[..k] + [x] + s[k..])
  {
    var r := s[..k] + [x] + s[k..];
    assert s == s[..k] + s[k..];
    if x !in s && Distinct(s) {
      forall i, j | 0 <= i < j < |r| ensures r[i] != r[j] {
        if i < k && j > k {
          assert r[i] == s[i] && r[j] == s[j - 1];
        } else if i > k {
          assert r[i] == s[i - 1] && r[j] == s[j - 1];
        } else if j < k {
          assert r[i] == s[i] && r[j] == s[j];
        } else if i == k {
          assert r[j] == s[j - 1];
        } else {
          assert r[i] == s[i];
        }
      }
    }
  }

  lemma InsertKeepsOrder(x: string, s: seq<string>, k: nat)
    requires Descending(s) && k <= |s|
    requires forall i :: 0 <= i < k ==> LexLess(x, s[i])
    requires k < |s| ==> LexLessOrEqual(s[k], x)
    ensures Descending(s[..k] + [x] + s[k..])
  {
    var r := s[..k] + [x] + s[k..];
    forall i, j | 0 <= i < j < |r| ensures LexLessOrEqual(r[j], r[i]) {
      if j < k {
        assert r[i] == s[i] && r[j] == s[j];
      } else if j == k {
        assert r[i] == s[i];
      } else if i < k {
        assert r[i] == s[i] && r[j] == s[j - 1];
        LexLessOrEqualTransitive(s[j - 1], s[k], x);
        LexLessOrEqualStrict(s[j - 1], x, s[i]);
      } else if i == k {
        assert r[j] == s[j - 1];
        LexLessOrEqualTransitive(s[j - 1], s[k], x);
      } else {
        assert r[i] == s[i - 1] && r[j] == s[j - 1];
      }
    }
  }

  lemma LexLessOrEqualTransitive(a: string, b: string, c: string)
    requires LexLessOrEqual(a, b) && LexLessOrEqual(b, c)
    ensures LexLessOrEqual(a, c)
  {
    if a != b && b != c {
      LexLessTransitive(a, b, c);
    }
  }

  lemma LexLessOrEqualStrict(a: string, b: string, c: string)
    requires LexLessOrEqual(a, b) && LexLess(b, c)
    ensures LexLessOrEqual(a, c)
  {
    if a != b {
      LexLessTransitive(a, b, c);
    }
  }

  /** `sort()` followed by `reverse()`: the same values, greatest first. */
  function SortDescending(xs: seq<string>): (r: seq<string>)
    ensures Descending(r)
    ensures multiset(r) == multiset(xs)
    ensures Distinct(xs) ==> Distinct(r)
  {
    if |xs| == 0 then []
    else
      var init, x := xs[..|xs| - 1], xs[|xs| - 1];
      assert xs == init + [x];
      var s := SortDescending(init);
      assert Distinct(xs) ==> x !in s by {
        assert x in s <==> x in multiset(init);
      }
      InsertDescending(x, s)
  }

  /**
   * The days offered by "All Submit": each day on which the user has a record,
   * once, in strictly descending order.
   */
  function DateList(rs: seq<Record>, user: string): (ds: seq<string>)
    ensures forall i, j :: 0 <= i < j < |ds| ==> LexLess(ds[j], ds[i])
    ensures forall d :: d in ds <==> exists i :: 0 <= i < |rs| && rs[i].telegramUser == user && Day(rs[i].date) == d
    ensures ds == [] <==> forall i :: 0 <= i < |rs| ==> rs[i].telegramUser != user
  {
    var unique := Dedup(DaysOf(rs, user));
    var ds := SortDescending(unique);
    SameElements(ds, unique);
    ds
  }

  /** Two sequences with the same multiset hold the same values and are as long. */
  lemma SameElements(a: seq<string>, b: seq<string>)
    requires multiset(a) == multiset(b)
    ensures forall d :: d in a <==> d in b
    ensures a == [] <==> b == []
  {
    forall d ensures d in a <==> d in b {
      assert d in a <==> d in multiset(a);
      assert d in b <==> d in multiset(b);
    }
    assert |a| == |b| by {
      assert |multiset(a)| == |multiset(b)|;
    }
  }

  /** The rows of two buttons the days are laid out in. */
  function Flatten(rows: seq<seq<string>>): seq<string> {
    if |rows| == 0 then [] else rows[0] + Flatten(rows[1..])
  }

  /**
   * The days cut into consecutive slices of two: rows of one
   * or two days, only the last one possibly short, that read back as the list.
   */
  function PairUp(ds: seq<string>): (rows: seq<seq<string>>)
    ensures Flatten(rows) == ds
    ensures forall i :: 0 <= i < |rows| ==> 1 <= |rows[i]| <= 2
    ensures forall i :: 0 <= i < |rows| - 1 ==> |rows[i]| == 2
    ensures |rows| == (|ds| + 1) / 2
  {
    if |ds| == 0 then []
    else if |ds| <= 2 then [ds]
    else
      var rest := PairUp(ds[2..]);
      var rows := [ds[..2]] + rest;
      assert rows[1..] == rest;
      assert ds == ds[..2] + ds[2..];
      rows
  }

  /** Button `j` of row `i` is the day at position `2 * i + j` of the list. */
  lemma {:induction false} PairUpIndex(ds: seq<string>, i: nat, j: nat)
    requires i < |PairUp(ds)| && j < |PairUp(ds)[i]|
    ensures 2 * i + j < |ds| && PairUp(ds)[i][j] == ds[2 * i + j]
    decreases |ds|
  {
    if |ds| > 2 && i > 0 {
      assert PairUp(ds)[i] == PairUp(ds[2..])[i - 1];
      PairUpIndex(ds[2..], i - 1, j);
    }
  }

  // ---------------------------------------------------------------- all submissions

  function UserOf(r: Record): string {
    r.telegramUser
  }

  function DayOfRecord(r: Record): string {
    Day(r.date)
  }

  /**
   * "All Submissions": `byUser`, and inside each user's bucket `byDate` keyed by
   * the first eight characters of the date id. The grouping is a partition; the
   * order in which JavaScript enumerates the keys is not part of the model.
   */
  function SubmissionGroups(rs: seq<Record>): (g: map<string, map<string, seq<Record>>>)
    ensures g.Keys == KeysOf(rs, UserOf)
    ensures forall u :: u in g ==> g[u] == GroupBy(Having(rs, UserOf, u), DayOfRecord)
  {
    var byUser := GroupBy(rs, UserOf);
    map u | u in byUser :: GroupBy(byUser[u], DayOfRecord)
  }

  /**
   * Every record appears in the group of its user and day exactly as often as
   * in the snapshot, and in no other group.
   */
  lemma SubmissionGroupsPartition(rs: seq<Record>, u: string, d: string, x: Record)
    ensures var g := SubmissionGroups(rs);
            u in g && d in g[u] ==>
              multiset(g[u][d])[x] == if x.telegramUser == u && Day(x.date) == d then multiset(rs)[x] else 0
  {
    if u in SubmissionGroups(rs) && d in SubmissionGroups(rs)[u] {
      var mine := Having(rs, UserOf, u);
      GroupByPartition(mine, DayOfRecord, d, x);
      HavingMultiplicity(rs, UserOf, u, x);
    }
  }

  /** Every record of the snapshot is shown, under its own user and day. */
  lemma SubmissionGroupsCover(rs: seq<Record>, i: nat)
    requires i < |rs|
    ensures var g := SubmissionGroups(rs);
            rs[i].telegramUser in g && Day(rs[i].date) in g[rs[i].telegramUser]
            && rs[i] in g[rs[i].telegramUser][Day(rs[i].date)]
  {
    var x := rs[i];
    GroupByCovers(rs, UserOf, i);
    var mine := Having(rs, UserOf, x.telegramUser);
    var j :| 0 <= j < |mine| && mine[j] == x;
    GroupByCovers(mine, DayOfRecord, j);
  }

  /**
   * The user keys for which `byUser[key]` on a plain object is already truthy
   * before any bucket is made: the inherited members, and `__proto__`.
   */
  const InheritedKeys: set<string> := ObjectPrototypeMembers + {"__proto__"}

  /** A record whose user key or day key is already taken on a plain object. */
  predicate ClashesWithPrototype(r: Record)
  {
    r.telegramUser in InheritedKeys || Day(r.date) in InheritedKeys
  }

  /**
   * "All Submissions" as the handler computes it on plain objects. Both
   * `byUser` and each user's `byDate` are plain objects: for a user or a day
   * named like an inherited key no bucket is created and `push` is called on
   * a value that has none, which throws. A user key fails before any message
   * is sent; a day key fails after the headings of the users listed before it
   * and its own user heading went out. `None` stands for either failure; the
   * partial output is not modelled.
   */
  function SubmissionGroupsAsWritten(rs: seq<Record>): (g: Option<map<string, map<string, seq<Record>>>>)
    ensures g.None? <==> exists i :: 0 <= i < |rs| && ClashesWithPrototype(rs[i])
    ensures g.Some? ==> g.value == SubmissionGroups(rs)
  {
    if exists i :: 0 <= i < |rs| && ClashesWithPrototype(rs[i]) then None
    else Some(SubmissionGroups(rs))
  }

  /**
   * A record of a reporter named like an inherited key, e.g. `constructor`, makes
   * the handler's listing fail altogether, although the record has its place
   * in the grouping.
   */
  lemma SubmissionGroupsAsWrittenFails(rs: seq<Record>, i: nat)
    requires i < |rs| && rs[i].telegramUser in InheritedKeys
    ensures SubmissionGroupsAsWritten(rs).None?
    ensures var g := SubmissionGroups(rs);
            rs[i].telegramUser in g && Day(rs[i].date) in g[rs[i].telegramUser]
            && rs[i] in g[rs[i].telegramUser][Day(rs[i].date)]
  {
    SubmissionGroupsCover(rs, i);
  }

  /**
   * A record dated on a day named like an inherited key, e.g. a date that
   * begins with `toString`, makes the handler's listing fail as well, although
   * the record has its place in the grouping.
   */
  lemma SubmissionGroupsAsWrittenFailsOnDay(rs: seq<Record>, i: nat)
    requires i < |rs| && Day(rs[i].date) in InheritedKeys
    ensures SubmissionGroupsAsWritten(rs).None?
    ensures var g := SubmissionGroups(rs);
            rs[i].telegramUser in g && Day(rs[i].date) in g[rs[i].telegramUser]
            && rs[i] in g[rs[i].telegramUser][Day(rs[i].date)]
  {
    SubmissionGroupsCover(rs, i);
  }
}
