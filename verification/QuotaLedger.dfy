/** What used_bytes counts, and which operations keep it exact. */
module QuotaLedger {
  import opened BlobRefs
  import opened BlobStore
  import opened Options
  import opened PlainStore
  import opened Rows
  import opened Sums

  ghost function LiveOf(user: string): File -> nat {
    (f: File) => if f.owner == user && !f.deleted then f.blob.size else 0
  }

  ghost function ChargeTo(files: Files, user: string): Version -> nat {
    (v: Version) => if v.file in files && files[v.file].owner == user then v.blob.size else 0
  }

  // The live files of a user and every version of their files, trashed or not.
  ghost function Charged(files: Files, versions: Versions, user: string): nat {
    Sum(files, LiveOf(user)) + Sum(versions, ChargeTo(files, user))
  }

  ghost predicate Balances(files: Files, versions: Versions, users: Accounts) {
    forall u :: u in users ==> users[u].used == Charged(files, versions, u)
  }

  ghost predicate Ledger(s: State) {
    Balances(s.files, s.versions, s.users)
  }

  ghost predicate Capped(users: Accounts) {
    forall u :: u in users ==> users[u].used <= users[u].quota
  }

  ghost predicate WithinQuota(s: State) {
    Capped(s.users)
  }

  // ---- sums of one user's rows ----

  lemma NoSum<K, R>(rows: map<K, R>, w: R -> nat)
    requires forall k :: k in rows ==> w(rows[k]) == 0
    ensures Sum(rows, w) == 0
  {
    SumIsPositive(rows, w);
  }

  // Versions are charged by the owner of their file alone.
  lemma SameOwners(files: Files, files': Files, versions: Versions, user: string)
    requires forall v :: v in versions ==>
               versions[v].file in files && versions[v].file in files'
                 && files'[versions[v].file].owner == files[versions[v].file].owner
    ensures Sum(versions, ChargeTo(files', user)) == Sum(versions, ChargeTo(files, user))
  {
    SumSame(versions, ChargeTo(files', user), versions, ChargeTo(files, user));
  }

  ghost predicate FileOfEach(files: Files, versions: Versions) {
    forall v :: v in versions ==> versions[v].file in files
  }

  // ---- each change of the rows ----

  lemma InsertCharges(files: Files, versions: Versions, id: string, row: File, user: string)
    requires id !in files && FileOfEach(files, versions)
    ensures Charged(files[id := row], versions, user) == Charged(files, versions, user) + LiveOf(user)(row)
  {
    SumAdd(files, id, row, LiveOf(user));
    SameOwners(files, files[id := row], versions, user);
  }

  lemma CopyCharges(files: Files, rows: Files, versions: Versions, owner: string, user: string)
    requires rows.Keys !! files.Keys && FileOfEach(files, versions)
    requires forall r :: r in rows ==> rows[r].owner == owner && !rows[r].deleted
    ensures Charged(files + rows, versions, user)
            == Charged(files, versions, user) + if user == owner then Sum(rows, FileSize()) else 0
  {
    SumSplit(files + rows, rows.Keys, LiveOf(user));
    assert (files + rows) - rows.Keys == files && Only(files + rows, rows.Keys) == rows;
    SameOwners(files, files + rows, versions, user);
    if user == owner {
      SumSame(rows, LiveOf(user), rows, FileSize());
    } else {
      NoSum(rows, LiveOf(user));
    }
  }

  // Live files of one owner, or none of them.
  lemma LiveSum(rows: Files, owner: string, user: string)
    requires forall f :: f in rows ==> rows[f].owner == owner && !rows[f].deleted
    ensures Sum(rows, LiveOf(user)) == if user == owner then Sum(rows, FileSize()) else 0
  {
    if user == owner {
      SumSame(rows, LiveOf(user), rows, FileSize());
    } else {
      NoSum(rows, LiveOf(user));
    }
  }

  lemma FlaggedSize(files: Files, ids: set<string>, deleted: bool)
    ensures Sum(Only(Flagged(files, ids, deleted), ids), FileSize()) == Sum(Only(files, ids), FileSize())
  {
    SumSame(Only(Flagged(files, ids, deleted), ids), FileSize(), Only(files, ids), FileSize());
  }

  lemma TrashCharges(files: Files, versions: Versions, ids: set<string>, owner: string, user: string)
    requires FileOfEach(files, versions)
    requires forall f :: f in ids && f in files ==> files[f].owner == owner && !files[f].deleted
    ensures Charged(files, versions, user)
         == Charged(Flagged(files, ids, true), versions, user)
           + if user == owner then Sum(Only(files, ids), FileSize()) else 0
  {
    var files' := Flagged(files, ids, true);
    SumSplit(files, ids, LiveOf(user));
    SumSplit(files', ids, LiveOf(user));
    assert files' - ids == files - ids;
    NoSum(Only(files', ids), LiveOf(user));
    LiveSum(Only(files, ids), owner, user);
    SameOwners(files, files', versions, user);
  }

  lemma RestoreCharges(files: Files, versions: Versions, ids: set<string>, owner: string, user: string)
    requires FileOfEach(files, versions)
    requires forall f :: f in ids && f in files ==> files[f].owner == owner && files[f].deleted
    ensures Charged(Flagged(files, ids, false), versions, user)
         == Charged(files, versions, user) + if user == owner then Sum(Only(files, ids), FileSize()) else 0
  {
    var files' := Flagged(files, ids, false);
    SumSplit(files, ids, LiveOf(user));
    SumSplit(files', ids, LiveOf(user));
    assert files' - ids == files - ids;
    NoSum(Only(files, ids), LiveOf(user));
    LiveSum(Only(files', ids), owner, user);
    FlaggedSize(files, ids, false);
    SameOwners(files, files', versions, user);
  }

  lemma RepointCharges(files: Files, versions: Versions, e: string, blob: Blob, user: string)
    requires e in files && FileOfEach(files, versions) && !files[e].deleted
    ensures Charged(files[e := files[e].(blob := blob)], versions, user)
            + (if user == files[e].owner then files[e].blob.size else 0)
         == Charged(files, versions, user) + if user == files[e].owner then blob.size else 0
  {
    SumSet(files, e, files[e].(blob := blob), LiveOf(user));
    SameOwners(files, files[e := files[e].(blob := blob)], versions, user);
  }

  lemma SnapshotCharges(files: Files, versions: Versions, id: string, row: Version, user: string)
    requires id !in versions && row.file in files
    ensures Charged(files, versions[id := row], user)
            == Charged(files, versions, user) + if user == files[row.file].owner then row.blob.size else 0
  {
    SumAdd(versions, id, row, ChargeTo(files, user));
  }

  lemma PruneCharges(files: Files, versions: Versions, gone: set<string>, file: string, user: string)
    requires file in files && forall v :: v in gone && v in versions ==> versions[v].file == file
    ensures Charged(files, versions, user)
         == Charged(files, versions - gone, user)
           + if user == files[file].owner then Sum(Only(versions, gone), SizeOf()) else 0
  {
    SumSplit(versions, gone, ChargeTo(files, user));
    if user == files[file].owner {
      SumSame(Only(versions, gone), ChargeTo(files, user), Only(versions, gone), SizeOf());
    } else {
      NoSum(Only(versions, gone), ChargeTo(files, user));
    }
  }

  // Case C: the owner pays for the new bytes, less what pruning gives back.
  lemma VersionCharges(s: State, up: Upload, a: Answers, blob: Blob, keep: nat, user: string)
    requires FileOfEach(s.files, s.versions) && up.versionID !in s.versions && a.existing.Some?
             && IsSameName(s.files, up, a.existing.value)
    ensures var e, all := a.existing.value, VersionsAfter(s, up, a);
            var excess := Excess(all, e, keep);
            Charged(s.files[e := s.files[e].(blob := blob)], all - excess, user)
            + (if user == up.owner then Sum(Only(all, excess), SizeOf()) else 0)
            == Charged(s.files, s.versions, user) + if user == up.owner then blob.size else 0
  {
    var e, all := a.existing.value, VersionsAfter(s, up, a);
    var files := s.files[e := s.files[e].(blob := blob)];
    RepointCharges(s.files, s.versions, e, blob, user);
    SnapshotCharges(files, s.versions, up.versionID, Snapshot(s.files[e], e, up, a.versionNo), user);
    PruneCharges(files, all, Excess(all, e, keep), e, user);
  }

  // The bytes a purge should give back: a trashed file gave its own back when it was trashed.
  ghost function LiveBytesOf(s: State, ids: set<string>): nat {
    Sum(Only(s.files, ids), LiveSize()) + Sum(Only(s.versions, VersionsOf(s.versions, ids)), SizeOf())
  }

  lemma DropCharges(s: State, ids: set<string>, owner: string, user: string)
    requires FileOfEach(s.files, s.versions)
    requires forall f :: f in ids && f in s.files ==> s.files[f].owner == owner
    ensures Charged(s.files, s.versions, user)
         == Charged(s.files - ids, s.versions - VersionsOf(s.versions, ids), user)
           + if user == owner then LiveBytesOf(s, ids) else 0
  {
    var gone := VersionsOf(s.versions, ids);
    SumSplit(s.files, ids, LiveOf(user));
    SumSplit(s.versions, gone, ChargeTo(s.files, user));
    SameOwners(s.files, s.files - ids, s.versions - gone, user);
    if user == owner {
      SumSame(Only(s.files, ids), LiveOf(user), Only(s.files, ids), LiveSize());
      SumSame(Only(s.versions, gone), ChargeTo(s.files, user), Only(s.versions, gone), SizeOf());
    } else {
      NoSum(Only(s.files, ids), LiveOf(user));
      NoSum(Only(s.versions, gone), ChargeTo(s.files, user));
    }
  }

  ghost function VersionBytes(s: State, ids: set<string>): nat {
    Sum(Only(s.versions, VersionsOf(s.versions, ids)), SizeOf())
  }

  lemma MovedVersions(s: State, ids: set<string>, src: string, dest: string, home: Home, user: string)
    requires FileOfEach(s.files, s.versions) && src != dest
    requires forall f :: f in ids && f in s.files ==> s.files[f].owner == src
    ensures Sum(s.versions, ChargeTo(Reassigned(s.files, ids, dest, home), user))
            + (if user == src then VersionBytes(s, ids) else 0)
         == Sum(s.versions, ChargeTo(s.files, user)) + if user == dest then VersionBytes(s, ids) else 0
  {
    var files', moved := Reassigned(s.files, ids, dest, home), VersionsOf(s.versions, ids);
    SumSplit(s.versions, moved, ChargeTo(s.files, user));
    SumSplit(s.versions, moved, ChargeTo(files', user));
    SameOwners(s.files, files', s.versions - moved, user);
    var rows := Only(s.versions, moved);
    if user == src { SumSame(rows, ChargeTo(s.files, user), rows, SizeOf()); } else {
      NoSum(rows, ChargeTo(s.files, user));
    }
    if user == dest { SumSame(rows, ChargeTo(files', user), rows, SizeOf()); } else {
      NoSum(rows, ChargeTo(files', user));
    }
  }

  lemma MovedFiles(s: State, ids: set<string>, src: string, dest: string, home: Home, user: string)
    requires src != dest && forall f :: f in ids && f in s.files ==> s.files[f].owner == src
    ensures Sum(Reassigned(s.files, ids, dest, home), LiveOf(user))
            + (if user == src then Sum(Only(s.files, ids), LiveSize()) else 0)
         == Sum(s.files, LiveOf(user)) + if user == dest then Sum(Only(s.files, ids), LiveSize()) else 0
  {
    var files' := Reassigned(s.files, ids, dest, home);
    SumSplit(s.files, ids, LiveOf(user));
    SumSplit(files', ids, LiveOf(user));
    assert files' - ids == s.files - ids;
    var rows, rows' := Only(s.files, ids), Only(files', ids);
    if user == src { SumSame(rows, LiveOf(user), rows, LiveSize()); } else { NoSum(rows, LiveOf(user)); }
    if user == dest { SumSame(rows', LiveOf(user), rows, LiveSize()); } else { NoSum(rows', LiveOf(user)); }
  }

  // A move takes the live bytes along, and the versions are charged to the new owner from then on.
  lemma MoveCharges(s: State, ids: set<string>, src: string, dest: string, home: Home, user: string)
    requires FileOfEach(s.files, s.versions) && src != dest
    requires forall f :: f in ids && f in s.files ==> s.files[f].owner == src
    ensures Charged(Reassigned(s.files, ids, dest, home), s.versions, user)
            + (if user == src then LiveBytesOf(s, ids) else 0)
         == Charged(s.files, s.versions, user) + if user == dest then LiveBytesOf(s, ids) else 0
  {
    MovedVersions(s, ids, src, dest, home, user);
    MovedFiles(s, ids, src, dest, home, user);
  }

  // ---- each operation ----

  ghost predicate OwnedLive(files: Files, ids: set<string>, user: string) {
    forall f :: f in ids && f in files ==> files[f].owner == user && !files[f].deleted
  }

  ghost predicate OwnedTrashed(files: Files, ids: set<string>, user: string) {
    forall f :: f in ids && f in files ==> files[f].owner == user && files[f].deleted
  }

  ghost predicate AllOwned(files: Files, ids: set<string>, user: string) {
    forall f :: f in ids && f in files ==> files[f].owner == user
  }

  // Only the owner's charge changes, by plus and minus.
  ghost predicate Shift(files: Files, versions: Versions, files': Files, versions': Versions, owner: string, plus: nat,
                        minus: nat)
  {
    forall u :: Charged(files', versions', u) + (if u == owner then minus else 0)
                == Charged(files, versions, u) + if u == owner then plus else 0
  }

  // The books stay right exactly when the owner's account moves by the same amounts.
  lemma ShiftBalances(files: Files, versions: Versions, users: Accounts, files': Files, versions': Versions,
                      users': Accounts, owner: string, plus: nat, minus: nat)
    requires Balances(files, versions, users) && Shift(files, versions, files', versions', owner, plus, minus)
    requires users'.Keys == users.Keys && forall u :: u in users && u != owner ==> users'[u].used == users[u].used
    ensures owner in users ==> minus <= users[owner].used + plus
    ensures Balances(files', versions', users') <==>
            (owner in users ==> users'[owner].used + minus == users[owner].used + plus)
  {
    if owner in users {
      assert Charged(files', versions', owner) + minus == Charged(files, versions, owner) + plus;
    }
    forall u | u in users && u != owner ensures users'[u].used == Charged(files', versions', u) {
      assert Charged(files', versions', u) + 0 == Charged(files, versions, u);
    }
  }

  lemma TrashLedger(s: State, ids: set<string>, user: string)
    requires FileOfEach(s.files, s.versions) && Ledger(s) && OwnedLive(s.files, ids, user)
    ensures Ledger(Trashed(s, ids, user))
    ensures user in s.users ==> Sum(Only(s.files, ids), FileSize()) <= s.users[user].used
  {
    var files', total := Flagged(s.files, ids, true), Sum(Only(s.files, ids), FileSize());
    forall u
      ensures Charged(files', s.versions, u) + (if u == user then total else 0) == Charged(s.files, s.versions, u)
    {
      TrashCharges(s.files, s.versions, ids, user, u);
    }
    ShiftBalances(s.files, s.versions, s.users, files', s.versions, Released(s.users, user, total), user, 0, total);
  }

  lemma RestoreLedger(s: State, ids: set<string>, user: string)
    requires FileOfEach(s.files, s.versions) && Ledger(s) && OwnedTrashed(s.files, ids, user)
    requires CanPay(s.users, user, Sum(Only(s.files, ids), FileSize()))
    ensures Ledger(Restored(s, ids, user))
  {
    var files', total := Flagged(s.files, ids, false), Sum(Only(s.files, ids), FileSize());
    forall u ensures Charged(files', s.versions, u) == Charged(s.files, s.versions, u) + if u == user then total else 0
    {
      RestoreCharges(s.files, s.versions, ids, user, u);
    }
    ShiftBalances(s.files, s.versions, s.users, files', s.versions, Reserved(s.users, user, total), user, total, 0);
  }

  lemma CopyShift(files: Files, rows: Files, versions: Versions, owner: string)
    requires rows.Keys !! files.Keys && FileOfEach(files, versions)
    requires forall r :: r in rows ==> rows[r].owner == owner && !rows[r].deleted
    ensures Shift(files, versions, files + rows, versions, owner, Sum(rows, FileSize()), 0)
  {
    forall u
      ensures Charged(files + rows, versions, u)
              == Charged(files, versions, u) + if u == owner then Sum(rows, FileSize()) else 0
    {
      CopyCharges(files, rows, versions, owner, u);
    }
  }

  lemma CopyBalances(files: Files, rows: Files, versions: Versions, users: Accounts, owner: string)
    requires FileOfEach(files, versions) && Balances(files, versions, users) && rows.Keys !! files.Keys
    requires forall r :: r in rows ==> rows[r].owner == owner && !rows[r].deleted
    requires CanPay(users, owner, Sum(rows, FileSize()))
    ensures Balances(files + rows, versions, Reserved(users, owner, Sum(rows, FileSize())))
  {
    var total := Sum(rows, FileSize());
    CopyShift(files, rows, versions, owner);
    ShiftBalances(files, versions, users, files + rows, versions, Reserved(users, owner, total), owner, total, 0);
  }

  lemma CopyLedger(s: State, rows: Files, owner: string)
    requires FileOfEach(s.files, s.versions) && Ledger(s) && rows.Keys !! s.files.Keys
    requires forall r :: r in rows ==> rows[r].owner == owner && !rows[r].deleted
    requires CanPay(s.users, owner, Sum(rows, FileSize()))
    ensures Ledger(Copied(s, rows, owner))
  {
    CopyBalances(s.files, rows, s.versions, s.users, owner);
  }

  lemma InsertLedger(s: State, id: string, row: File)
    requires FileOfEach(s.files, s.versions) && Ledger(s) && id !in s.files && !row.deleted
             && Fits(s.users, row.owner, row.blob.size)
    ensures Balances(s.files[id := row], s.versions, Reserved(s.users, row.owner, row.blob.size))
  {
    var size := row.blob.size;
    forall u
      ensures Charged(s.files[id := row], s.versions, u)
              == Charged(s.files, s.versions, u) + if u == row.owner then size else 0
    {
      InsertCharges(s.files, s.versions, id, row, u);
    }
    ShiftBalances(s.files, s.versions, s.users, s.files[id := row], s.versions, Reserved(s.users, row.owner, size),
      row.owner, size, 0);
  }

  // Pruning gives back no more than the account holds.
  lemma VersionLedger(s: State, up: Upload, a: Answers, blob: Blob, keep: nat)
    requires FileOfEach(s.files, s.versions) && Ledger(s) && up.versionID !in s.versions && blob.size == up.size
    requires a.existing.Some? && IsSameName(s.files, up, a.existing.value) && Fits(s.users, up.owner, up.size)
    ensures var e, all := a.existing.value, VersionsAfter(s, up, a);
            var freed := Sum(Only(all, Excess(all, e, keep)), SizeOf());
            && freed <= s.users[up.owner].used + up.size
            && Balances(s.files[e := s.files[e].(blob := blob)], all - Excess(all, e, keep),
                        Released(Reserved(s.users, up.owner, up.size), up.owner, freed))
  {
    var e, all := a.existing.value, VersionsAfter(s, up, a);
    var excess := Excess(all, e, keep);
    var files', freed := s.files[e := s.files[e].(blob := blob)], Sum(Only(all, excess), SizeOf());
    forall u ensures Charged(files', all - excess, u) + (if u == up.owner then freed else 0)
                     == Charged(s.files, s.versions, u) + if u == up.owner then up.size else 0
    {
      VersionCharges(s, up, a, blob, keep, u);
    }
    ShiftBalances(s.files, s.versions, s.users, files', all - excess,
                  Released(Reserved(s.users, up.owner, up.size), up.owner, freed), up.owner, up.size, freed);
  }

  lemma UploadLedger(s: State, up: Upload, a: Answers, keep: nat)
    requires FileOfEach(s.files, s.versions) && Ledger(s) && up.fileID !in s.files && up.versionID !in s.versions
             && Answered(s, up, a)
    requires SameContent(s.files, up, a.existing) || Fits(s.users, up.owner, up.size)
    ensures Ledger(Uploaded(s, up, a, keep))
  {
    if !SameContent(s.files, up, a.existing) {
      if a.existing.None? {
        InsertLedger(s, up.fileID, NewRow(s.files, up, a.donor));
      } else {
        VersionLedger(s, up, a, ChosenBlob(s.files, up, a.donor), keep);
      }
    }
  }

  lemma DropShift(s: State, ids: set<string>, user: string)
    requires FileOfEach(s.files, s.versions) && AllOwned(s.files, ids, user)
    ensures Shift(s.files, s.versions, s.files - ids, s.versions - VersionsOf(s.versions, ids), user, 0,
                LiveBytesOf(s, ids))
  {
    forall u
      ensures Charged(s.files - ids, s.versions - VersionsOf(s.versions, ids), u)
              + (if u == user then LiveBytesOf(s, ids) else 0)
                     == Charged(s.files, s.versions, u)
    {
      DropCharges(s, ids, user, u);
    }
  }

  // The purge of trashed files takes their bytes off a second time.
  lemma PurgeLedger(s: State, ids: set<string>, user: string)
    requires FileOfEach(s.files, s.versions) && Ledger(s) && AllOwned(s.files, ids, user) && user in s.users
    ensures LiveBytesOf(s, ids) <= s.users[user].used
    ensures Ledger(Purged(s, ids, user)) <==>
            BytesOf(s, ids) == LiveBytesOf(s, ids) || s.users[user].used == LiveBytesOf(s, ids)
  {
    var files', versions' := s.files - ids, s.versions - VersionsOf(s.versions, ids);
    LiveIsPart(Only(s.files, ids));
    DropShift(s, ids, user);
    ShiftBalances(s.files, s.versions, s.users, files', versions', Released(s.users, user, BytesOf(s, ids)), user, 0,
      LiveBytesOf(s, ids));
  }

  lemma {:induction false} LiveIsPart(rows: Files)
    ensures Sum(rows, LiveSize()) <= Sum(rows, FileSize())
    decreases rows.Keys
  {
    if rows != map[] {
      var f :| f in rows;
      SumTake(rows, f, LiveSize());
      SumTake(rows, f, FileSize());
      LiveIsPart(rows - {f});
    }
  }

  // A move to another owner leaves the bytes of old versions on the account that no longer owns them.
  lemma MoveLedger(s: State, ids: set<string>, src: string, dest: string, home: Home)
    requires FileOfEach(s.files, s.versions) && Ledger(s) && AllOwned(s.files, ids, src)
    requires src in s.users && dest in s.users && src != dest
    requires CanPay(Released(s.users, src, Sum(Only(s.files, ids), LiveSize())), dest,
                 Sum(Only(s.files, ids), LiveSize()))
    ensures Ledger(Moved(s, ids, src, dest, home)) <==> VersionBytes(s, ids) == 0
  {
    var total := Sum(Only(s.files, ids), LiveSize());
    MoveCharges(s, ids, src, dest, home, src);
    MoveCharges(s, ids, src, dest, home, dest);
    TransferUse(s.users, src, dest, total);
    Bystanders(s, ids, src, dest, home);
    TwoAccounts(s.files, Reassigned(s.files, ids, dest, home), s.versions, s.users,
      Reserved(Released(s.users, src, total), dest, total), src, dest);
  }

  // The books of two accounts change: the others stay right.
  lemma TwoAccounts(files: Files, files': Files, versions: Versions, users: Accounts, users': Accounts, src: string,
                    dest: string)
    requires Balances(files, versions, users) && users'.Keys == users.Keys && src in users && dest in users
    requires forall u :: u in users && u != src && u != dest ==>
               users'[u].used == users[u].used && Charged(files', versions, u) == Charged(files, versions, u)
    ensures Balances(files', versions, users') <==>
              users'[src].used == Charged(files', versions, src) && users'[dest].used == Charged(files', versions, dest)
  {
  }

  lemma Bystanders(s: State, ids: set<string>, src: string, dest: string, home: Home)
    requires FileOfEach(s.files, s.versions) && AllOwned(s.files, ids, src) && src != dest
    ensures forall u :: u in s.users && u != src && u != dest ==>
              Charged(Reassigned(s.files, ids, dest, home), s.versions, u) == Charged(s.files, s.versions, u)
  {
    forall u | u in s.users && u != src && u != dest
      ensures Charged(Reassigned(s.files, ids, dest, home), s.versions, u) == Charged(s.files, s.versions, u)
    {
      MoveCharges(s, ids, src, dest, home, u);
    }
  }

  lemma TransferUse(users: Accounts, src: string, dest: string, total: nat)
    requires src in users && dest in users && src != dest && CanPay(Released(users, src, total), dest, total)
    requires total <= users[src].used
    ensures var users' := Reserved(Released(users, src, total), dest, total);
            && users'.Keys == users.Keys && users'[src].used == users[src].used - total
              && users'[dest].used == users[dest].used + total
            && forall u :: u in users && u != src && u != dest ==> users'[u].used == users[u].used
  {
  }

  // ---- folders that change owner, whoever owns the files in them ----

  // Live bytes of neither account, and version bytes that are not charged to the new one.
  ghost function ThirdSize(src: string, dest: string): File -> nat {
    (f: File) => if f.owner != src && f.owner != dest && !f.deleted then f.blob.size else 0
  }

  ghost function Foreign(files: Files, dest: string): Version -> nat {
    (v: Version) => if v.file in files && files[v.file].owner == dest then 0 else v.blob.size
  }

  lemma {:induction false} LiveInThree(rows: Files, src: string, dest: string)
    requires src != dest
    ensures Sum(rows, LiveSize()) == Sum(rows, LiveOf(src)) + Sum(rows, LiveOf(dest)) + Sum(rows, ThirdSize(src, dest))
    decreases rows.Keys
  {
    if rows != map[] {
      var f :| f in rows;
      SumTake(rows, f, LiveSize());
      SumTake(rows, f, LiveOf(src));
      SumTake(rows, f, LiveOf(dest));
      SumTake(rows, f, ThirdSize(src, dest));
      LiveInThree(rows - {f}, src, dest);
    }
  }

  lemma {:induction false} VersionsInTwo(rows: Versions, files: Files, dest: string)
    ensures Sum(rows, SizeOf()) == Sum(rows, ChargeTo(files, dest)) + Sum(rows, Foreign(files, dest))
    decreases rows.Keys
  {
    if rows != map[] {
      var v :| v in rows;
      SumTake(rows, v, SizeOf());
      SumTake(rows, v, ChargeTo(files, dest));
      SumTake(rows, v, Foreign(files, dest));
      VersionsInTwo(rows - {v}, files, dest);
    }
  }

  lemma {:induction false} SumLess<K, R>(rows: map<K, R>, w: R -> nat, w': R -> nat)
    requires forall k :: k in rows ==> w(rows[k]) <= w'(rows[k])
    ensures Sum(rows, w) <= Sum(rows, w')
    decreases rows.Keys
  {
    if rows != map[] {
      var k :| k in rows;
      SumTake(rows, k, w);
      SumTake(rows, k, w');
      SumLess(rows - {k}, w, w');
    }
  }

  // What the moved files and their versions charge to an account.
  ghost function ChargedUnder(s: State, ids: set<string>, user: string): nat {
    Sum(Only(s.files, ids), LiveOf(user)) + Sum(Only(s.versions, VersionsOf(s.versions, ids)), ChargeTo(s.files, user))
  }

  lemma ReassignedFiles(s: State, ids: set<string>, dest: string, user: string)
    ensures Sum(Reassigned(s.files, ids, dest, InPlace), LiveOf(user)) + Sum(Only(s.files, ids), LiveOf(user))
         == Sum(s.files, LiveOf(user)) + if user == dest then Sum(Only(s.files, ids), LiveSize()) else 0
  {
    var files' := Reassigned(s.files, ids, dest, InPlace);
    SumSplit(s.files, ids, LiveOf(user));
    SumSplit(files', ids, LiveOf(user));
    assert files' - ids == s.files - ids;
    var rows, rows' := Only(s.files, ids), Only(files', ids);
    if user == dest { SumSame(rows', LiveOf(user), rows, LiveSize()); } else { NoSum(rows', LiveOf(user)); }
  }

  lemma ReassignedVersions(s: State, ids: set<string>, dest: string, user: string)
    requires FileOfEach(s.files, s.versions)
    ensures Sum(s.versions, ChargeTo(Reassigned(s.files, ids, dest, InPlace), user))
            + Sum(Only(s.versions, VersionsOf(s.versions, ids)), ChargeTo(s.files, user))
         == Sum(s.versions, ChargeTo(s.files, user)) + if user == dest then VersionBytes(s, ids) else 0
  {
    var files', moved := Reassigned(s.files, ids, dest, InPlace), VersionsOf(s.versions, ids);
    SumSplit(s.versions, moved, ChargeTo(s.files, user));
    SumSplit(s.versions, moved, ChargeTo(files', user));
    SameOwners(s.files, files', s.versions - moved, user);
    var rows := Only(s.versions, moved);
    if user == dest { SumSame(rows, ChargeTo(files', user), rows, SizeOf()); } else {
      NoSum(rows, ChargeTo(files', user));
    }
  }

  lemma ReassignedCharge(s: State, ids: set<string>, dest: string, user: string)
    requires FileOfEach(s.files, s.versions)
    ensures Charged(Reassigned(s.files, ids, dest, InPlace), s.versions, user) + ChargedUnder(s, ids, user)
         == Charged(s.files, s.versions, user) + if user == dest then LiveBytesOf(s, ids) else 0
  {
    ReassignedFiles(s, ids, dest, user);
    ReassignedVersions(s, ids, dest, user);
  }

  // Nothing of a third owner is live below, and no version of a file that is not the new owner's.
  ghost predicate Unencumbered(s: State, ids: set<string>, src: string, dest: string) {
    && (forall f ::
      f in ids && f in s.files && !s.files[f].deleted && s.files[f].owner != src && s.files[f].owner != dest ==>
          s.files[f].blob.size == 0)
    && (forall v :: v in s.versions && s.versions[v].file in ids
                    && !(s.versions[v].file in s.files && s.files[s.versions[v].file].owner == dest) ==>
          s.versions[v].blob.size == 0)
  }

  // The bytes that change hands without changing accounts.
  ghost function StrandedBytes(s: State, ids: set<string>, src: string, dest: string): nat {
    Sum(Only(s.files, ids), ThirdSize(src, dest))
      + Sum(Only(s.versions, VersionsOf(s.versions, ids)), Foreign(s.files, dest))
  }

  lemma NothingStranded(s: State, ids: set<string>, src: string, dest: string)
    ensures StrandedBytes(s, ids, src, dest) == 0 <==> Unencumbered(s, ids, src, dest)
  {
    var rows, versions := Only(s.files, ids), Only(s.versions, VersionsOf(s.versions, ids));
    SumIsPositive(rows, ThirdSize(src, dest));
    SumIsPositive(versions, Foreign(s.files, dest));
    assert forall f :: f in rows ==> rows[f] == s.files[f] && f in ids;
    if Unencumbered(s, ids, src, dest) {
      assert forall f :: f in rows ==> ThirdSize(src, dest)(rows[f]) == 0;
      assert forall v :: v in versions ==> Foreign(s.files, dest)(versions[v]) == 0;
    }
    if StrandedBytes(s, ids, src, dest) == 0 {
      forall f | f in ids && f in s.files ensures ThirdSize(src, dest)(s.files[f]) == 0 { assert f in rows; }
      forall v | v in s.versions && s.versions[v].file in ids ensures Foreign(s.files, dest)(s.versions[v]) == 0 {
        assert v in versions;
      }
    }
  }

  // The new owner is charged what came over, and all that is stranded besides.
  lemma NewOwnerCharge(s: State, ids: set<string>, src: string, dest: string)
    requires FileOfEach(s.files, s.versions) && src != dest
    ensures Charged(Reassigned(s.files, ids, dest, InPlace), s.versions, dest)
         == Charged(s.files, s.versions, dest) + Sum(Only(s.files, ids), LiveOf(src)) + StrandedBytes(s, ids, src, dest)
  {
    ReassignedCharge(s, ids, dest, dest);
    LiveInThree(Only(s.files, ids), src, dest);
    VersionsInTwo(Only(s.versions, VersionsOf(s.versions, ids)), s.files, dest);
  }

  // Any other account keeps its charge but for its own part.
  lemma OldOwnerCharge(s: State, ids: set<string>, src: string, dest: string, user: string)
    requires FileOfEach(s.files, s.versions) && src != dest && user != dest
    ensures var left := if user == src then Sum(Only(s.files, ids), LiveOf(src)) else 0;
            var charge := Charged(Reassigned(s.files, ids, dest, InPlace), s.versions, user);
            charge + left <= Charged(s.files, s.versions, user) <= charge + left + StrandedBytes(s, ids, src, dest)
  {
    ReassignedCharge(s, ids, dest, user);
    var rows, versions := Only(s.files, ids), Only(s.versions, VersionsOf(s.versions, ids));
    SumLess(versions, ChargeTo(s.files, user), Foreign(s.files, dest));
    if user != src { SumLess(rows, LiveOf(user), ThirdSize(src, dest)); }
  }

  lemma OwnLive(s: State, folders: set<string>, src: string)
    ensures Sum(Only(s.files, InFolders(s.files, src, folders, false)), FileSize())
         == Sum(Only(s.files, AllInFolders(s.files, folders)), LiveOf(src)) <= Sum(s.files, LiveOf(src))
  {
    var ids, live := AllInFolders(s.files, folders), InFolders(s.files, src, folders, false);
    var rows := Only(s.files, ids);
    SumSplit(s.files, ids, LiveOf(src));
    SumSplit(rows, live, LiveOf(src));
    NoSum(rows - live, LiveOf(src));
    assert Only(rows, live) == Only(s.files, live);
    SumSame(Only(s.files, live), LiveOf(src), Only(s.files, live), FileSize());
  }

  // Bytes are transferred: `live` of them on both accounts, while the rows of the new owner grow by more.
  lemma NewOwnerDecides(files: Files, files': Files, versions: Versions, users: Accounts, users': Accounts, src: string,
                        dest: string, live: nat, stranded: nat)
    requires Balances(files, versions, users) && users'.Keys == users.Keys && src in users && dest in users
             && src != dest
    requires users'[src].used + live == users[src].used && users'[dest].used == users[dest].used + live
    requires forall u :: u in users && u != src && u != dest ==> users'[u].used == users[u].used
    requires Charged(files', versions, dest) == Charged(files, versions, dest) + live + stranded
    requires stranded == 0 ==> forall u :: u in users && u != dest ==>
               Charged(files', versions, u) + (if u == src then live else 0) == Charged(files, versions, u)
    ensures Balances(files', versions, users') <==> stranded == 0
  {
  }

  lemma OldOwnersCharge(s: State, ids: set<string>, src: string, dest: string)
    requires FileOfEach(s.files, s.versions) && src != dest && StrandedBytes(s, ids, src, dest) == 0
    ensures forall u :: u in s.users && u != dest ==>
              Charged(Reassigned(s.files, ids, dest, InPlace), s.versions, u)
              + (if u == src then Sum(Only(s.files, ids), LiveOf(src)) else 0) == Charged(s.files, s.versions, u)
  {
    forall u | u in s.users && u != dest
      ensures Charged(Reassigned(s.files, ids, dest, InPlace), s.versions, u)
              + (if u == src then Sum(Only(s.files, ids), LiveOf(src)) else 0) == Charged(s.files, s.versions, u)
    {
      OldOwnerCharge(s, ids, src, dest, u);
    }
  }

  // Folders that change owner with all files in them: the accounts stay exact if and only if no live bytes
  // of a third owner and no version bytes of other files than the new owner's go along.
  lemma FoldersLedger(s: State, folders: set<string>, src: string, dest: string)
    requires FileOfEach(s.files, s.versions) && Ledger(s) && src in s.users && dest in s.users && src != dest
    requires var total := Sum(Only(s.files, InFolders(s.files, src, folders, false)), FileSize());
             CanPay(Released(s.users, src, total), dest, total)
    ensures Ledger(FoldersMoved(s, folders, src, dest)) <==>
            Unencumbered(s, AllInFolders(s.files, folders), src, dest)
  {
    var ids := AllInFolders(s.files, folders);
    var total := Sum(Only(s.files, InFolders(s.files, src, folders, false)), FileSize());
    OwnLive(s, folders, src);
    TransferUse(s.users, src, dest, total);
    NewOwnerCharge(s, ids, src, dest);
    NothingStranded(s, ids, src, dest);
    if StrandedBytes(s, ids, src, dest) == 0 { OldOwnersCharge(s, ids, src, dest); }
    NewOwnerDecides(s.files, Reassigned(s.files, ids, dest, InPlace), s.versions, s.users,
      Reserved(Released(s.users, src, total), dest, total), src, dest, total, StrandedBytes(s, ids, src, dest));
  }

  // It moves the bytes without losing or making any.
  lemma MoveConserves(s: State, ids: set<string>, src: string, dest: string, home: Home)
    requires FileOfEach(s.files, s.versions) && Ledger(s) && AllOwned(s.files, ids, src)
    requires src in s.users && dest in s.users && src != dest
    requires CanPay(Released(s.users, src, Sum(Only(s.files, ids), LiveSize())), dest,
                 Sum(Only(s.files, ids), LiveSize()))
    ensures Moved(s, ids, src, dest, home).users[src].used + Moved(s, ids, src, dest, home).users[dest].used
         == s.users[src].used + s.users[dest].used
    ensures Charged(Moved(s, ids, src, dest, home).files, s.versions, src)
            + Charged(Moved(s, ids, src, dest, home).files, s.versions, dest)
         == Charged(s.files, s.versions, src) + Charged(s.files, s.versions, dest)
  {
    MoveCharges(s, ids, src, dest, home, src);
    MoveCharges(s, ids, src, dest, home, dest);
    TransferUse(s.users, src, dest, Sum(Only(s.files, ids), LiveSize()));
  }

  // The resources of a user go; their account is left for the caller to delete.
  lemma DeleteUserLedger(s: State, user: string)
    requires FileOfEach(s.files, s.versions) && Ledger(s)
    ensures Ledger(Dropped(s, OwnedBy(s.files, user), s.users)) <==> (user in s.users ==> s.users[user].used == 0)
    ensures Balances(s.files - OwnedBy(s.files, user), s.versions - VersionsOf(s.versions, OwnedBy(s.files, user)),
                s.users - {user})
  {
    var ids := OwnedBy(s.files, user);
    var files', versions', minus := s.files - ids, s.versions - VersionsOf(s.versions, ids), LiveBytesOf(s, ids);
    DropShift(s, ids, user);
    NothingLeft(files', versions', user);
    ShiftBalances(s.files, s.versions, s.users, files', versions', s.users, user, 0, minus);
    forall u | u in s.users - {user} ensures (s.users - {user})[u].used == Charged(files', versions', u) {
      assert Charged(files', versions', u) + 0 == Charged(s.files, s.versions, u);
    }
  }

  lemma NothingLeft(files: Files, versions: Versions, user: string)
    requires forall f :: f in files ==> files[f].owner != user
    ensures Charged(files, versions, user) == 0
  {
    NoSum(files, LiveOf(user));
    NoSum(versions, ChargeTo(files, user));
  }

  // ---- every step ----

  // The handlers' own checks: whose rows they touch, and that the bytes fit.
  ghost predicate Paid(s: State, op: Op) {
    match op
    case CommitUpload(up, a, keep) => SameContent(s.files, up, a.existing) || Fits(s.users, up.owner, up.size)
    case Copy(copies, owner) => CanPay(s.users, owner, Sum(CopiedRows(s.files, copies, owner), FileSize()))
    case Trash(ids, user) => OwnedLive(s.files, ids, user)
    case Restore(ids, user) => OwnedTrashed(s.files, ids, user)
      && CanPay(s.users, user, Sum(Only(s.files, ids), FileSize()))
    case Move(ids, src, dest, home) =>
      && AllOwned(s.files, ids, src) && src != dest && src in s.users
      && CanPay(Released(s.users, src, Sum(Only(s.files, ids), LiveSize())), dest, Sum(Only(s.files, ids), LiveSize()))
    case MoveFolders(folders, src, dest) =>
      var total := Sum(Only(s.files, InFolders(s.files, src, folders, false)), FileSize());
      src != dest && src in s.users && CanPay(Released(s.users, src, total), dest, total)
    case Purge(ids, user) => AllOwned(s.files, ids, user) && user in s.users
    case _ => true
  }

  // When a step leaves every account exact.
  ghost predicate Exact(s: State, op: Op) {
    match op
    case Purge(ids, user) =>
      BytesOf(s, ids) == LiveBytesOf(s, ids) || (user in s.users && s.users[user].used == LiveBytesOf(s, ids))
    case Move(ids, src, dest, home) => VersionBytes(s, ids) == 0
    case MoveFolders(folders, src, dest) => Unencumbered(s, AllInFolders(s.files, folders), src, dest)
    case DeleteUser(user) => user in s.users ==> s.users[user].used == 0
    case _ => true
  }

  lemma StepLedger(s: State, op: Op, h: Digest)
    requires Inv(s, h) && Enabled(s, op, h) && Paid(s, op) && Ledger(s)
    ensures Ledger(Next(s, op, h)) <==> Exact(s, op)
  {
    match op
    case CommitUpload(up, a, keep) => UploadLedger(s, up, a, keep);
    case Copy(copies, owner) => CopyLedger(s, CopiedRows(s.files, copies, owner), owner);
    case Trash(ids, user) => TrashLedger(s, ids, user);
    case Restore(ids, user) => RestoreLedger(s, ids, user);
    case Refile(id, folder) => RefileLedger(s, id, folder);
    case Move(ids, src, dest, home) => MoveLedger(s, ids, src, dest, home);
    case MoveFolders(folders, src, dest) => FoldersLedger(s, folders, src, dest);
    case ForgetFolders(folders) => ForgetLedger(s, folders);
    case Purge(ids, user) => PurgeLedger(s, ids, user);
    case DeleteUser(user) => DeleteUserLedger(s, user);
    case _ =>
  }

  lemma RefileLedger(s: State, id: string, folder: Option<string>)
    requires FileOfEach(s.files, s.versions) && id in s.files && Ledger(s)
    ensures Ledger(s.(files := s.files[id := s.files[id].(folder := folder)]))
  {
    var files := s.files[id := s.files[id].(folder := folder)];
    forall u | u in s.users ensures Charged(files, s.versions, u) == Charged(s.files, s.versions, u) {
      SumSet(s.files, id, files[id], LiveOf(u));
      SameOwners(s.files, files, s.versions, u);
    }
  }

  lemma ForgetCharges(files: Files, versions: Versions, folders: set<string>, user: string)
    requires FileOfEach(files, versions)
    ensures Charged(Unhoused(files, folders), versions, user) == Charged(files, versions, user)
  {
    SumSame(Unhoused(files, folders), LiveOf(user), files, LiveOf(user));
    SameOwners(files, Unhoused(files, folders), versions, user);
  }

  lemma ForgetLedger(s: State, folders: set<string>)
    requires FileOfEach(s.files, s.versions) && Ledger(s)
    ensures Ledger(s.(files := Unhoused(s.files, folders)))
  {
    forall u | u in s.users ensures s.users[u].used == Charged(Unhoused(s.files, folders), s.versions, u) {
      ForgetCharges(s.files, s.versions, folders, u);
    }
  }

  lemma QuotaOpsKeepCap(users: Accounts, user: string, size: nat)
    requires Capped(users)
    ensures Capped(Reserved(users, user, size)) && Capped(Released(users, user, size))
  {
  }

  lemma StepWithinQuota(s: State, op: Op, h: Digest)
    requires Enabled(s, op, h) && WithinQuota(s)
    ensures WithinQuota(Next(s, op, h))
  {
    match op
    case CommitUpload(up, a, keep) =>
      QuotaOpsKeepCap(s.users, up.owner, up.size);
      if a.existing.Some? {
        var all := VersionsAfter(s, up, a);
        QuotaOpsKeepCap(Reserved(s.users, up.owner, up.size), up.owner,
          Sum(Only(all, Excess(all, a.existing.value, keep)), SizeOf()));
      }
    case Copy(copies, owner) => QuotaOpsKeepCap(s.users, owner, Sum(CopiedRows(s.files, copies, owner), FileSize()));
    case Trash(ids, user) => QuotaOpsKeepCap(s.users, user, Sum(Only(s.files, ids), FileSize()));
    case Restore(ids, user) => QuotaOpsKeepCap(s.users, user, Sum(Only(s.files, ids), FileSize()));
    case Move(ids, src, dest, home) =>
      QuotaOpsKeepCap(s.users, src, Sum(Only(s.files, ids), LiveSize()));
      QuotaOpsKeepCap(Released(s.users, src, Sum(Only(s.files, ids), LiveSize())), dest,
        Sum(Only(s.files, ids), LiveSize()));
    case MoveFolders(folders, src, dest) =>
      var total := Sum(Only(s.files, InFolders(s.files, src, folders, false)), FileSize());
      QuotaOpsKeepCap(s.users, src, total);
      QuotaOpsKeepCap(Released(s.users, src, total), dest, total);
    case Purge(ids, user) => QuotaOpsKeepCap(s.users, user, BytesOf(s, ids));
    case _ =>
  }

  // Over any run whose purges, cross-owner moves and deletions are exact, every account stays exact.
  lemma {:induction false} RunLedger(states: seq<State>, ops: seq<Op>, h: Digest, n: nat)
    requires Trace(states, ops, h) && h.CollisionFree() && Inv(states[0], h) && Ledger(states[0])
             && WithinQuota(states[0])
    requires forall i :: 0 <= i < |ops| ==> Paid(states[i], ops[i]) && Exact(states[i], ops[i])
    requires n <= |ops|
    ensures Inv(states[n], h) && Ledger(states[n]) && WithinQuota(states[n])
    decreases n
  {
    if n > 0 {
      RunLedger(states, ops, h, n - 1);
      StepKeepsInv(states[n - 1], ops[n - 1], h);
      StepLedger(states[n - 1], ops[n - 1], h);
      StepWithinQuota(states[n - 1], ops[n - 1], h);
    }
  }

  // Two one-byte files of one user, the first in the trash.
  ghost function TwoFiles(): State {
    var files: Files := map["1" := TrashedOne(), "2" := LiveOne()];
    State(files, map[], Recount(files, map[]), map["p" := Sealed("k", [0]), "q" := Sealed("k", [0])],
      map["u" := Account(1, 10)])
  }

  ghost function TrashedOne(): File {
    File("a", "u", None, Blob("p", "k", 1, ""), true)
  }

  ghost function LiveOne(): File {
    File("b", "u", None, Blob("q", "k", 1, ""), false)
  }

  lemma TwoFilesLedger()
    ensures Ledger(TwoFiles())
  {
    SumsOfTwo("1", TrashedOne(), "2", LiveOne(), LiveOf("u"));
    SumOfNone<string, Version>(ChargeTo(TwoFiles().files, "u"));
  }

  lemma TwoFilesBytes()
    ensures BytesOf(TwoFiles(), {"1"}) == 1 && LiveBytesOf(TwoFiles(), {"1"}) == 0
  {
    var rows: Files := map["1" := TrashedOne()];
    assert Only(TwoFiles().files, {"1"}) == rows;
    assert Only(TwoFiles().versions, VersionsOf(TwoFiles().versions, {"1"})) == map[];
    SumTake(rows, "1", FileSize());
    SumTake(rows, "1", LiveSize());
    assert rows - {"1"} == map[];
  }

  lemma TwoFilesSound(h: Digest)
    ensures Inv(TwoFiles(), h) && OwnedTrashed(TwoFiles().files, {"1"}, "u")
  {
  }

  // Purging the trashed one empties the account, although the other file still counts.
  lemma PurgeBreaksLedger(h: Digest)
    ensures Inv(TwoFiles(), h) && OwnedTrashed(TwoFiles().files, {"1"}, "u") && Ledger(TwoFiles())
    ensures !Ledger(Purged(TwoFiles(), {"1"}, "u"))
  {
    var s := TwoFiles();
    TwoFilesSound(h);
    TwoFilesLedger();
    TwoFilesBytes();
    assert s.users["u"].used == 1;
    PurgeLedger(s, {"1"}, "u");
  }

  lemma SumsOfTwo<R>(i: string, a: R, j: string, b: R, w: R -> nat)
    requires i != j
    ensures Sum(map[i := a, j := b], w) == w(a) + w(b)
  {
    SumTake(map[i := a, j := b], i, w);
    SumTake(map[i := a, j := b] - {i}, j, w);
    assert map[i := a, j := b] - {i} - {j} == map[];
  }

  // A one-byte file with one one-byte version, and an account to move it to.
  ghost function OneVersioned(): State {
    var files, versions: Versions := map["2" := LiveOne()], map["v" := OldOne()];
    State(files, versions, Recount(files, versions), map["p" := Sealed("k", [0]), "q" := Sealed("k", [0])],
          map["u" := Account(2, 10), "w" := Account(0, 10)])
  }

  ghost function OldOne(): Version {
    Version("2", 1, Blob("p", "k", 1, ""), "u")
  }

  lemma SumOfSingle<R>(k: string, r: R, w: R -> nat)
    ensures Sum(map[k := r], w) == w(r)
  {
    SumTake(map[k := r], k, w);
    assert map[k := r] - {k} == map[];
  }

  lemma OneVersionedSound(h: Digest)
    ensures Inv(OneVersioned(), h)
  {
  }

  lemma OneVersionedCharge(user: string)
    ensures Charged(OneVersioned().files, OneVersioned().versions, user) == if user == "u" then 2 else 0
  {
    SumOfSingle("2", LiveOne(), LiveOf(user));
    SumOfSingle("v", OldOne(), ChargeTo(OneVersioned().files, user));
  }

  lemma OneVersionedLedger()
    ensures Ledger(OneVersioned())
  {
    OneVersionedCharge("u");
    OneVersionedCharge("w");
  }

  lemma OneVersionedBytes()
    ensures VersionBytes(OneVersioned(), {"2"}) == 1
    ensures Sum(Only(OneVersioned().files, {"2"}), LiveSize()) == 1
  {
    var s := OneVersioned();
    assert Only(s.versions, VersionsOf(s.versions, {"2"})) == map["v" := OldOne()];
    assert Only(s.files, {"2"}) == map["2" := LiveOne()];
    SumOfSingle("v", OldOne(), SizeOf());
    SumOfSingle("2", LiveOne(), LiveSize());
  }

  lemma OneVersionedMovable()
    ensures FileOfEach(OneVersioned().files, OneVersioned().versions) && AllOwned(OneVersioned().files, {"2"}, "u")
    ensures CanPay(Released(OneVersioned().users, "u", 1), "w", 1)
  {
  }

  // Moving it leaves the version's byte on the first account, although no file of that user is left.
  lemma MoveBreaksLedger(h: Digest)
    ensures Inv(OneVersioned(), h) && Ledger(OneVersioned())
    ensures !Ledger(Moved(OneVersioned(), {"2"}, "u", "w", InPlace))
  {
    OneVersionedSound(h);
    OneVersionedLedger();
    MoveUnbalances(OneVersioned());
  }

  lemma MoveUnbalances(s: State)
    requires s == OneVersioned() && Ledger(s)
    ensures !Ledger(Moved(s, {"2"}, "u", "w", InPlace))
  {
    OneVersionedBytes();
    OneVersionedMovable();
    MoveLedger(s, {"2"}, "u", "w", InPlace);
  }
}
