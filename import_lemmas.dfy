/** What the bulk import promises: one report entry per row, in row
    order; the store invariants kept across the whole loop; rows that are
    incomplete or whose email exists never reach account creation; and
    every email reported as added names a distinct user that the import
    itself created. */
module ImportLemmas {
  import opened Entities
  import opened Users
  import opened UsersLemmas

  /** The added list and the errors list together hold one entry per row. */
  lemma {:induction false} ReportAccounting(outs: seq<RowOutcome>)
    ensures |AddedOf(outs)| + |ErrorsOf(outs)| == |outs|
  {
    if outs != [] {
      ReportAccounting(outs[..|outs| - 1]);
    }
  }

  /** Extending the processed prefix by row i appends that row's outcome
      and moves to the store its step leaves. */
  lemma ImportRowsSnoc(st: Store, rows: seq<UserDto>, parentId: Option<UserId>, gen: nat -> string, i: nat)
    requires i < |rows|
    ensures var (outs, mid) := ImportRows(st, rows[..i], parentId, gen);
      var (o, last) := ImportStep(mid, rows[i], parentId, gen(i));
      ImportRows(st, rows[..i + 1], parentId, gen) == (outs + [o], last)
  {
    assert rows[..i + 1][..i] == rows[..i];
  }

  /** An outcome appended to the report lands in exactly one of its two lists. */
  lemma ReportSnoc(outs: seq<RowOutcome>, o: RowOutcome)
    ensures o.Added? ==> AddedOf(outs + [o]) == AddedOf(outs) + [o.email] && ErrorsOf(outs + [o]) == ErrorsOf(outs)
    ensures o.Rejected? ==> AddedOf(outs + [o]) == AddedOf(outs) && ErrorsOf(outs + [o]) == ErrorsOf(outs) + [o.error]
  {
    assert (outs + [o])[..|outs|] == outs;
  }

  /** Processing a prefix of the rows yields the same prefix of outcomes: rows are handled in input order. */
  lemma {:induction false} ImportPrefix(st: Store, rows: seq<UserDto>, parentId: Option<UserId>, gen: nat -> string, k: nat)
    requires k <= |rows|
    ensures ImportRows(st, rows[..k], parentId, gen).0 == ImportRows(st, rows, parentId, gen).0[..k]
    decreases |rows|
  {
    if k < |rows| {
      var n := |rows| - 1;
      assert rows[..n][..k] == rows[..k];
      ImportPrefix(st, rows[..n], parentId, gen, k);
      ImportRowsSnoc(st, rows, parentId, gen, n);
      assert rows[..n + 1] == rows;
      var (prev, mid) := ImportRows(st, rows[..n], parentId, gen);
      SnocPrefix(prev, ImportStep(mid, rows[n], parentId, gen(n)).0, k);
    } else {
      assert rows[..k] == rows;
    }
  }

  lemma SnocPrefix<T>(s: seq<T>, x: T, k: nat)
    requires k <= |s|
    ensures (s + [x])[..k] == s[..k]
  {
  }

  /** Each iteration's entry carries the email of the row it processed. */
  lemma ImportStepEmail(st: Store, row: UserDto, parentId: Option<UserId>, generated: string)
    ensures OutcomeEmail(ImportStep(st, row, parentId, generated).0) == row.email
  {
  }

  /** Appending the outcome of the last row to outcomes that follow the
      earlier rows gives outcomes that follow all the rows. */
  lemma EmailsFollowSnoc(prev: seq<RowOutcome>, o: RowOutcome, rows: seq<UserDto>)
    requires |rows| == |prev| + 1
    requires forall i :: 0 <= i < |prev| ==> OutcomeEmail(prev[i]) == rows[..|prev|][i].email
    requires OutcomeEmail(o) == rows[|prev|].email
    ensures forall i :: 0 <= i < |rows| ==> OutcomeEmail((prev + [o])[i]) == rows[i].email
  {
    forall i | 0 <= i < |rows| ensures OutcomeEmail((prev + [o])[i]) == rows[i].email {
      if i < |prev| {
        assert (prev + [o])[i] == prev[i] && rows[..|prev|][i] == rows[i];
      }
    }
  }

  /** Entry i of the report is about row i: it carries that row's email. */
  lemma {:induction false} ImportEntriesFollowRows(st: Store, rows: seq<UserDto>, parentId: Option<UserId>, gen: nat -> string)
    ensures var outs := ImportRows(st, rows, parentId, gen).0;
      forall i :: 0 <= i < |rows| ==> OutcomeEmail(outs[i]) == rows[i].email
    decreases |rows|
  {
    if rows != [] {
      var n := |rows| - 1;
      ImportEntriesFollowRows(st, rows[..n], parentId, gen);
      var (prev, mid) := ImportRows(st, rows[..n], parentId, gen);
      ImportStepEmail(mid, rows[n], parentId, gen(n));
      ImportRowsSnoc(st, rows, parentId, gen, n);
      assert rows[..n + 1] == rows;
      EmailsFollowSnoc(prev, ImportStep(mid, rows[n], parentId, gen(n)).0, rows);
    }
  }

  /** addedUsers holds exactly the emails of the outcomes reported as added. */
  lemma {:induction false} AddedOfMembers(outs: seq<RowOutcome>)
    ensures forall e :: e in AddedOf(outs) <==> exists i :: 0 <= i < |outs| && outs[i] == Added(e)
  {
    if outs != [] {
      var n := |outs| - 1;
      AddedOfMembers(outs[..n]);
      forall e ensures e in AddedOf(outs) <==> exists i :: 0 <= i < |outs| && outs[i] == Added(e) {
        if e in AddedOf(outs) && e !in AddedOf(outs[..n]) {
          assert outs[n] == Added(e);
        }
        if exists i :: 0 <= i < |outs| && outs[i] == Added(e) {
          var i :| 0 <= i < |outs| && outs[i] == Added(e);
          if i < n {
            assert outs[..n][i] == Added(e);
          }
        }
      }
    }
  }

  /** The outcomes of a prefix contribute a prefix of addedUsers. */
  lemma {:induction false} AddedOfPrefix(outs: seq<RowOutcome>, k: nat)
    requires k <= |outs|
    ensures AddedOf(outs[..k]) <= AddedOf(outs)
    decreases |outs|
  {
    if k < |outs| {
      var n := |outs| - 1;
      assert outs[..n][..k] == outs[..k];
      AddedOfPrefix(outs[..n], k);
    } else {
      assert outs[..k] == outs;
    }
  }

  /** addedUsers keeps row order: the emails added by the first k rows
      are the first entries of the whole list. */
  lemma ImportAddedInRowOrder(st: Store, rows: seq<UserDto>, parentId: Option<UserId>, gen: nat -> string, k: nat)
    requires k <= |rows|
    ensures AddedOf(ImportRows(st, rows[..k], parentId, gen).0) <= AddedOf(ImportRows(st, rows, parentId, gen).0)
  {
    ImportPrefix(st, rows, parentId, gen, k);
    AddedOfPrefix(ImportRows(st, rows, parentId, gen).0, k);
  }

  /** A row with a missing field is reported with its missing fields and
      changes nothing; a complete row whose email exists is reported as
      existing and changes nothing. */
  lemma ImportStepRejects(st: Store, row: UserDto, parentId: Option<UserId>, generated: string)
    ensures !Complete(row) ==>
      ImportStep(st, row, parentId, generated) == (Rejected(Incomplete(row.email, row.name, row.dni, MissingFields(row))), st)
    ensures Complete(row) && EmailExists(st.users, row.email) ==>
      ImportStep(st, row, parentId, generated) == (Rejected(AlreadyExists(row.email, row.name, row.dni)), st)
    ensures Complete(row) && !EmailExists(st.users, row.email) ==>
      var (r, st') := CreateUser(st, row, parentId, generated);
      ImportStep(st, row, parentId, generated) == (if r.Ok? then Added(row.email) else Rejected(CreationFailed(row.email, r.failure)), st')
  {
  }

  /** One loop iteration keeps the invariants, keeps every existing user,
      and when it reports a row as added, that row's email was new and now
      belongs to a user. */
  lemma ImportStepKeeps(st: Store, row: UserDto, parentId: Option<UserId>, generated: string)
    requires Valid(st)
    ensures var (o, st') := ImportStep(st, row, parentId, generated);
      && Valid(st')
      && (forall id :: id in st.users ==> id in st'.users && st'.users[id] == st.users[id])
      && FirstLoginNotRaised(st, st')
      && (o.Added? ==> o.email == row.email && !EmailExists(st.users, o.email) && EmailExists(st'.users, o.email))
  {
    var (o, st') := ImportStep(st, row, parentId, generated);
    if Complete(row) && !EmailExists(st.users, row.email) {
      ProvisionPreservesValid(st, row, parentId, generated, SelfService);
      ProvisionFrame(st, row, parentId, generated, SelfService);
      var (r, s2) := CreateUser(st, row, parentId, generated);
      if r.Ok? {
        assert s2.users[r.value.id].email == row.email;
      }
    }
  }

  /** The whole loop keeps the store invariants, keeps every user that
      existed before, never sets a cleared first-login flag again, and
      reports as added only distinct emails, each new to the store before
      the import and each belonging to a user afterwards. */
  lemma {:induction false} ImportKeeps(st: Store, rows: seq<UserDto>, parentId: Option<UserId>, gen: nat -> string)
    requires Valid(st)
    ensures var (outs, st') := ImportRows(st, rows, parentId, gen);
      && Valid(st')
      && (forall id :: id in st.users ==> id in st'.users && st'.users[id] == st.users[id])
      && FirstLoginNotRaised(st, st')
      && Distinct(AddedOf(outs))
      && (forall e :: e in AddedOf(outs) ==> !EmailExists(st.users, e) && EmailExists(st'.users, e))
    decreases |rows|
  {
    if rows != [] {
      var n := |rows| - 1;
      ImportKeeps(st, rows[..n], parentId, gen);
      ImportRowsSnoc(st, rows, parentId, gen, n);
      assert rows[..n + 1] == rows;
      var (outs, mid) := ImportRows(st, rows[..n], parentId, gen);
      ImportStepKeeps(mid, rows[n], parentId, gen(n));
      var (o, last) := ImportStep(mid, rows[n], parentId, gen(n));
      forall e | e in AddedOf(outs) ensures EmailExists(last.users, e) {
        var id :| id in mid.users && mid.users[id].email == e;
        assert last.users[id] == mid.users[id];
      }
      ReportSnoc(outs, o);
      if o.Added? {
        DistinctSnoc(AddedOf(outs), o.email);
      }
    }
  }

  lemma DistinctSnoc<T>(s: seq<T>, x: T)
    requires Distinct(s) && x !in s
    ensures Distinct(s + [x])
  {
    forall i, j | 0 <= i < j < |s| + 1 ensures (s + [x])[i] != (s + [x])[j] {
      if j < |s| {
        assert (s + [x])[i] == s[i] && (s + [x])[j] == s[j];
      } else {
        assert (s + [x])[i] == s[i];
      }
    }
  }

  /** importUsers: an empty file path is refused before anything happens;
      otherwise every row yields exactly one entry in addedUsers or errors
      and the loop never aborts. */
  lemma ImportUsersOutcome(st: Store, filePath: string, rows: seq<UserDto>, parentId: Option<UserId>, gen: nat -> string)
    ensures var (r, st') := ImportUsers(st, filePath, rows, parentId, gen);
      && (filePath == "" <==> r.Err?)
      && (r.Err? ==> r.failure == FileNotSelected && st' == st)
      && (r.Ok? ==> |r.value.addedUsers| + |r.value.errors| == |rows|)
  {
    ReportAccounting(ImportRows(st, rows, parentId, gen).0);
  }
}
