/**
 The checkpoint repository of internal/checkpoint/repository.go: Save writes the manifest file and then the
 index entry, Delete removes the index entry and then the file. The index is an encrypted collection with an
 in-memory copy, which a restart reloads from disk.
 */
module Repository {
  type Id = nat
  type Hash = nat

  datatype Summary = Summary(workload: nat, keyVersion: nat, hash: Hash)

  /** The stored envelope with the manifest inside it. */
  datatype Envelope = Envelope(workload: nat, checkpoint: Id, keyVersion: nat, hash: Hash)

  /** index is the in-memory collection, stored what a restart would load, files the manifest files. */
  datatype Repo = Repo(index: map<Id, Summary>, stored: map<Id, Summary>, files: map<Id, Envelope>)

  /**
   How a durable write ends. Late is a write that reached the disk although its call reported an error: a
   rename whose directory sync failed, a journal line that could not be truncated back out.
   */
  datatype Write = Landed | Rejected | Late | CrashBefore | CrashAfter

  predicate OnDisk(w: Write) { w.Landed? || w.Late? || w.CrashAfter? }

  predicate Crashes(w: Write) { w.CrashBefore? || w.CrashAfter? }

  datatype LoadResult = Loaded(hash: Hash) | NotFound | NoFile | Unreadable | Disagrees

  datatype Op =
    | Save(id: Id, summary: Summary, readable: bool, file: Write, entry: Write, removed: bool)
    | Delete(id: Id, entry: Write, directory: Write)
    | Compact
    | Restart

  predicate Matches(id: Id, summary: Summary, e: Envelope) {
    e == Envelope(summary.workload, id, summary.keyVersion, summary.hash)
  }

  /** readable is false when the stored file cannot be read or decrypted this time. */
  function Load(r: Repo, id: Id, readable: bool): LoadResult {
    if id !in r.index then NotFound
    else if id !in r.files then NoFile
    else if !readable then Unreadable
    else if Matches(id, r.index[id], r.files[id]) then Loaded(r.files[id].hash)
    else Disagrees
  }

  /** Save goes on to write only when the checkpoint is not indexed, or its file is gone. */
  predicate Writes(r: Repo, op: Op)
    requires op.Save?
  {
    var found := Load(r, op.id, op.readable);
    found.NotFound? || found.NoFile?
  }

  function Reopened(r: Repo): Repo {
    r.(index := r.stored)
  }

  /** The index write of Save, after the manifest file landed. */
  function PutEntry(r: Repo, id: Id, summary: Summary, entry: Write, removed: bool): Repo {
    var stored := if OnDisk(entry) then r.stored[id := summary] else r.stored;
    if Crashes(entry) then Reopened(r.(stored := stored))
    else if entry.Landed? then r.(index := r.index[id := summary], stored := stored)
    else r.(stored := stored, files := if removed then r.files - {id} else r.files)
  }

  function SaveStep(r: Repo, op: Op): Repo
    requires op.Save?
  {
    if !Writes(r, op) then r
    else
      var s := op.summary;
      var written := if OnDisk(op.file)
                     then r.(files := r.files[op.id := Envelope(s.workload, op.id, s.keyVersion, s.hash)]) else r;
      if Crashes(op.file) then Reopened(written)
      else if !op.file.Landed? then written
      else PutEntry(written, op.id, s, op.entry, op.removed)
  }

  function DeleteStep(r: Repo, op: Op): Repo
    requires op.Delete?
  {
    if op.id !in r.index then r
    else
      var stored := if OnDisk(op.entry) then r.stored - {op.id} else r.stored;
      if Crashes(op.entry) then Reopened(r.(stored := stored))
      else if !op.entry.Landed? then r.(stored := stored)
      else
        var files := if OnDisk(op.directory) then r.files - {op.id} else r.files;
        var gone := Repo(r.index - {op.id}, stored, files);
        if Crashes(op.directory) then Reopened(gone) else gone
  }

  function Step(r: Repo, op: Op): Repo {
    match op
    case Save(_, _, _, _, _, _) => SaveStep(r, op)
    case Delete(_, _, _) => DeleteStep(r, op)
    case Compact => r.(stored := r.index)
    case Restart => Reopened(r)
  }

  function Exec(r: Repo, run: seq<Op>): Repo {
    if run == [] then r else Step(Exec(r, run[..|run| - 1]), run[|run| - 1])
  }

  /** The repository after the first k calls of a run. */
  function At(r: Repo, run: seq<Op>, k: nat): Repo
    requires k <= |run|
  {
    Exec(r, run[..k])
  }

  // ---------------------------------------------------------------- every indexed checkpoint has its manifest

  /** The stored manifest of id is the one its index entry describes. */
  ghost predicate Fits(files: map<Id, Envelope>, id: Id, summary: Summary) {
    id in files && Matches(id, summary, files[id])
  }

  ghost predicate AllFit(files: map<Id, Envelope>, entries: map<Id, Summary>) {
    forall id <- entries :: Fits(files, id, entries[id])
  }

  /** Every indexed checkpoint, in memory or after a restart, has a stored manifest that matches it. */
  ghost predicate Matched(r: Repo) {
    AllFit(r.files, r.index) && AllFit(r.files, r.stored) && r.stored.Keys <= r.index.Keys
  }

  /** Save reaches its index write, and that write reports an error but survives on disk. */
  predicate GhostEntry(r: Repo, op: Op) {
    op.Save? && Writes(r, op) && op.file.Landed? && op.entry.Late?
  }

  lemma SaveMatched(r: Repo, op: Op)
    requires Matched(r) && op.Save?
    ensures Matched(SaveStep(r, op)) <==> !GhostEntry(r, op)
  {
    if Writes(r, op) {
      assert op.id !in r.index && op.id !in r.stored by { assert op.id in r.index ==> Fits(r.files, op.id, r.index[op.id]); }
      var s := op.summary;
      var files := r.files[op.id := Envelope(s.workload, op.id, s.keyVersion, s.hash)];
      FilesKept(r.files, files, r.index, op.id);
      FilesKept(r.files, files, r.stored, op.id);
      FilesKept(r.files, files - {op.id}, r.index, op.id);
      FilesKept(r.files, files - {op.id}, r.stored, op.id);
      assert Fits(files, op.id, s);
    }
  }

  /** A change to one checkpoint's file matters to no entry but its own. */
  lemma FilesKept(before: map<Id, Envelope>, after: map<Id, Envelope>, entries: map<Id, Summary>, changed: Id)
    requires AllFit(before, entries) && changed !in entries
    requires forall id | id in before && id != changed :: id in after && after[id] == before[id]
    ensures AllFit(after, entries)
  {
    forall id <- entries ensures Fits(after, id, entries[id]) {
      assert Fits(before, id, entries[id]);
    }
  }

  lemma DeleteMatched(r: Repo, op: Op)
    requires Matched(r) && op.Delete?
    ensures Matched(DeleteStep(r, op))
  {
    FilesKept(r.files, r.files - {op.id}, r.index - {op.id}, op.id);
    FilesKept(r.files, r.files - {op.id}, r.stored - {op.id}, op.id);
  }

  /**
   One call, crashed or failed between any two of its writes, keeps every index entry matched if and only if
   it leaves no ghost entry.
   */
  lemma MatchedIff(r: Repo, op: Op)
    requires Matched(r)
    ensures Matched(Step(r, op)) <==> !GhostEntry(r, op)
  {
    if op.Save? {
      SaveMatched(r, op);
    } else if op.Delete? {
      DeleteMatched(r, op);
    }
  }

  /** The failing family, concretely: the caller was told no, yet after a restart the index names a missing manifest. */
  lemma GhostEntryDangles(id: Id, s: Summary, readable: bool)
    ensures var empty := Repo(map[], map[], map[]);
            var r := Step(Step(empty, Save(id, s, readable, Landed, Late, true)), Restart);
            Load(r, id, true) == NoFile && !Matched(r)
  {
    var empty := Repo(map[], map[], map[]);
    var r := Step(Step(empty, Save(id, s, readable, Landed, Late, true)), Restart);
    assert id in r.index && !Fits(r.files, id, r.index[id]);
  }

  ghost predicate NoGhosts(r: Repo, run: seq<Op>) {
    forall k | 0 <= k < |run| :: !GhostEntry(At(r, run, k), run[k])
  }

  /** Over any run of saves, deletes, compactions and restarts: matched at every point if and only if no save leaves a ghost entry. */
  lemma {:induction false} MatchedAlways(r: Repo, run: seq<Op>)
    requires Matched(r)
    ensures NoGhosts(r, run) <==> forall k | 0 <= k <= |run| :: Matched(At(r, run, k))
  {
    if NoGhosts(r, run) {
      forall k | 0 <= k <= |run| ensures Matched(At(r, run, k)) {
        MatchedUpTo(r, run, k);
      }
    } else {
      var k :| 0 <= k < |run| && GhostEntry(At(r, run, k), run[k]);
      if Matched(At(r, run, k)) {
        ExecStep(r, run, k);
        MatchedIff(At(r, run, k), run[k]);
        assert !Matched(At(r, run, k + 1));
      }
    }
  }

  lemma ExecStep(r: Repo, run: seq<Op>, k: nat)
    requires k < |run|
    ensures At(r, run, k + 1) == Step(At(r, run, k), run[k])
  {
    assert run[..k + 1][..k] == run[..k];
  }

  lemma {:induction false} MatchedUpTo(r: Repo, run: seq<Op>, k: nat)
    requires Matched(r) && NoGhosts(r, run) && k <= |run|
    ensures Matched(At(r, run, k))
  {
    if k > 0 {
      MatchedUpTo(r, run, k - 1);
      ExecStep(r, run, k - 1);
      MatchedIff(At(r, run, k - 1), run[k - 1]);
    }
  }

  // ---------------------------------------------------------------- what each ending of a write leaves

  /**
   A checkpoint saved for the first time is there after a restart exactly when its file landed and its entry reached the
   disk, and the file was not removed for an entry that was reported as failed.
   */
  lemma SavedIff(r: Repo, op: Op)
    requires op.Save? && op.id !in r.index && op.id !in r.stored
    ensures Load(Step(Step(r, op), Restart), op.id, true) == Loaded(op.summary.hash) <==>
              op.file.Landed? && (op.entry.Landed? || op.entry.CrashAfter? || (op.entry.Late? && !op.removed))
    ensures Load(Step(r, op), op.id, true) == Loaded(op.summary.hash) <==>
              op.file.Landed? && (op.entry.Landed? || op.entry.CrashAfter?)
  {
  }

  /** A stored checkpoint is gone after a Delete and a restart exactly when the removal of its entry reached the disk. */
  lemma DeletedIff(r: Repo, op: Op)
    requires op.Delete? && op.id in r.index && op.id in r.stored
    ensures Load(Step(Step(r, op), Restart), op.id, true) == NotFound <==>
              op.entry.Landed? || op.entry.CrashAfter? || op.entry.Late?
  {
  }

  /** A call about one checkpoint touches no other's file or entry on disk. */
  lemma OthersUntouched(r: Repo, op: Op, id: Id)
    requires (op.Save? || op.Delete?) && op.id != id
    ensures var t := Step(r, op);
            && (id in t.files <==> id in r.files) && (id in r.files ==> t.files[id] == r.files[id])
            && (id in t.stored <==> id in r.stored) && (id in r.stored ==> t.stored[id] == r.stored[id])
  {
  }

  // ---------------------------------------------------------------- immutability

  /** The checkpoint loads, and a restart would load the same index entry. */
  ghost predicate Durable(r: Repo, id: Id) {
    Load(r, id, true).Loaded? && id in r.stored && r.stored[id] == r.index[id]
  }

  /** No call but its own Delete changes what a durable checkpoint loads as, whatever else is wrong with the repository. */
  lemma LoadedStays(r: Repo, op: Op, id: Id)
    requires Durable(r, id) && !(op.Delete? && op.id == id)
    ensures Durable(Step(r, op), id) && Load(Step(r, op), id, true) == Load(r, id, true)
  {
  }

  /**
   Once a checkpoint loads at some point of a run, every later load returns the same manifest hash until it is
   deleted, over any repository and any run. Its entry must be on disk at that point: an earlier Delete that reported
   an error but reached the journal has already taken it away (DeletedLate).
   */
  lemma {:induction false} Immutable(r: Repo, run: seq<Op>, i: nat, j: nat, id: Id)
    requires i <= j <= |run| && Durable(At(r, run, i), id)
    requires forall k | i <= k < j :: !(run[k].Delete? && run[k].id == id)
    ensures Durable(At(r, run, j), id) && Load(At(r, run, j), id, true) == Load(At(r, run, i), id, true)
    decreases j
  {
    if i < j {
      Immutable(r, run, i, j - 1, id);
      ExecStep(r, run, j - 1);
      LoadedStays(At(r, run, j - 1), run[j - 1], id);
    }
  }

  /** In a matched repository every checkpoint that loads and has an entry on disk is durable. */
  lemma LoadedIsDurable(r: Repo, id: Id)
    requires Matched(r) && Load(r, id, true).Loaded? && id in r.stored
    ensures Durable(r, id)
  {
    assert Fits(r.files, id, r.index[id]) && Fits(r.files, id, r.stored[id]);
  }

  /** A checkpoint that loads survives a restart if and only if its entry is on disk; a Late delete is how it goes missing. */
  lemma DeletedLate(r: Repo, id: Id, directory: Write)
    requires Matched(r) && Load(r, id, true).Loaded?
    ensures Load(Step(r, Restart), id, true) == Load(r, id, true) <==> id in r.stored
    ensures var late := Step(r, Delete(id, Late, directory));
            Load(late, id, true) == Load(r, id, true) && Load(Step(late, Restart), id, true) == NotFound
  {
    assert Fits(r.files, id, r.index[id]);
    assert id in r.stored ==> Fits(r.files, id, r.stored[id]);
  }

  // ---------------------------------------------------------------- the repository

  class Store {
    var index: map<Id, Summary>
    var stored: map<Id, Summary>
    var files: map<Id, Envelope>

    ghost function View(): Repo
      reads this
    {
      Repo(index, stored, files)
    }

    constructor (entries: map<Id, Summary>, manifests: map<Id, Envelope>)
      ensures View() == Repo(entries, entries, manifests)
    {
      index, stored, files := entries, entries, manifests;
    }

    method LoadManifest(id: Id, readable: bool) returns (found: LoadResult)
      ensures found == Load(View(), id, readable)
      // Loaded exactly when index, envelope and manifest agree on workload, id, key version and hash; else what is wrong.
      ensures found.Loaded? <==> && id in index && id in files && readable
                                 && files[id].workload == index[id].workload && files[id].checkpoint == id
                                 && files[id].keyVersion == index[id].keyVersion && files[id].hash == index[id].hash
      ensures found.Loaded? ==> found.hash == index[id].hash
      ensures (found.NotFound? <==> id !in index) && (found.NoFile? <==> id in index && id !in files)
      ensures found.Unreadable? <==> id in index && id in files && !readable
    {
      if id !in index { return NotFound; }
      if id !in files { return NoFile; }
      if !readable { return Unreadable; }
      var summary, envelope := index[id], files[id];
      if envelope.workload != summary.workload || envelope.checkpoint != id || envelope.keyVersion != summary.keyVersion {
        return Disagrees;
      }
      if envelope.hash != summary.hash { return Disagrees; }
      return Loaded(envelope.hash);
    }

    /** Save: nothing for a checkpoint already stored, otherwise the file and then the index entry. */
    method SaveManifest(op: Op) returns (ok: bool)
      requires op.Save?
      modifies this
      ensures View() == SaveStep(old(View()), op)
      ensures ok <==> || old(Load(View(), op.id, op.readable)) == Loaded(op.summary.hash)
                      || (old(Writes(View(), op)) && op.file.Landed? && op.entry.Landed?)
      ensures ok ==> Load(View(), op.id, true) == Loaded(op.summary.hash)
      ensures ok && old(Writes(View(), op)) ==> Durable(View(), op.id)
    {
      var found := LoadManifest(op.id, op.readable);
      if found.Loaded? { return found.hash == op.summary.hash; }
      if !found.NotFound? && !found.NoFile? { return false; }
      var s := op.summary;
      if OnDisk(op.file) { files := files[op.id := Envelope(s.workload, op.id, s.keyVersion, s.hash)]; }
      if Crashes(op.file) { index := stored; return false; }
      if !op.file.Landed? { return false; }
      if OnDisk(op.entry) { stored := stored[op.id := s]; }
      if Crashes(op.entry) { index := stored; return false; }
      if !op.entry.Landed? {
        if op.removed { files := files - {op.id}; }
        return false;
      }
      index := index[op.id := s];
      return true;
    }

    method DeleteManifest(op: Op) returns (ok: bool)
      requires op.Delete?
      modifies this
      ensures View() == DeleteStep(old(View()), op)
      ensures ok ==> Load(View(), op.id, true) == NotFound && op.id !in stored && op.id !in files
      ensures ok <==> op.id in old(index) && op.entry.Landed? && op.directory.Landed?
    {
      if op.id !in index { return false; }
      if OnDisk(op.entry) { stored := stored - {op.id}; }
      if Crashes(op.entry) { index := stored; return false; }
      if !op.entry.Landed? { return false; }
      index := index - {op.id};
      if OnDisk(op.directory) { files := files - {op.id}; }
      if Crashes(op.directory) { index := stored; return false; }
      return op.directory.Landed?;
    }
  }
}
