// The envelope codec's administrative operations on the live tables: re-encryption in
// bounded batches and retirement of user keys, while other writers keep running.
module KeyRotation {
  import opened Base
  import opened Json
  import opened Envelopes
  import opened SyncLog
  import opened PushProtocol
  import opened PushRefinement
  import opened KeyRetirement

  datatype CodecError = InvalidVersion | CurrentVersion | InvalidLimit | PayloadUnavailable | StillUsed

  datatype BatchResult = BatchResult(fromVersion: nat, toVersion: nat, selected: nat, migrated: nat, skipped: nat, remaining: nat)

  // What other processes do: append a row, re-encrypt one, or create a user key.
  datatype Foreign = Inserted(row: Version) | Resealed(index: nat, envelope: Envelope) | KeyCreated(slot: Slot, key: nat)

  // ----- the rows of one key version -----

  function Used(rows: seq<Version>, version: nat): set<nat> {
    set i | 0 <= i < |rows| && UsesVersion(rows[i], version)
  }

  // The positions of the first rows, at most `limit`, whose envelope has this version.
  function Selected(rows: seq<Version>, version: nat, limit: nat): (positions: seq<nat>)
    ensures |positions| <= limit
    ensures forall k :: 0 <= k < |positions| ==> positions[k] < |rows| && UsesVersion(rows[positions[k]], version)
  {
    if rows == [] then [] else
      var n := |rows| - 1;
      var before := Selected(rows[..n], version, limit);
      if UsesVersion(rows[n], version) && |before| < limit then before + [n] else before
  }

  function Positions(positions: seq<nat>): set<nat> { set i | i in positions }

  lemma UsedOneMore(rows: seq<Version>, version: nat)
    requires rows != []
    ensures var n := |rows| - 1;
      var before := Used(rows[..n], version);
      && Used(rows, version) == (if UsesVersion(rows[n], version) then before + {n} else before)
      && |Used(rows, version)| == |before| + if UsesVersion(rows[n], version) then 1 else 0
  {
    var n := |rows| - 1;
    assert Used(rows, version) == Used(rows[..n], version) + if UsesVersion(rows[n], version) then {n} else {};
  }

  lemma {:induction false} SelectedSize(rows: seq<Version>, version: nat, limit: nat)
    ensures |Selected(rows, version, limit)| == if |Used(rows, version)| <= limit then |Used(rows, version)| else limit
  {
    if rows != [] {
      SelectedSize(rows[..|rows| - 1], version, limit);
      UsedOneMore(rows, version);
    }
  }

  lemma {:induction false} SelectedPositions(rows: seq<Version>, version: nat, limit: nat)
    ensures var positions := Selected(rows, version, limit);
      |Positions(positions)| == |positions| && Positions(positions) <= Used(rows, version)
  {
    if rows != [] {
      var n := |rows| - 1;
      SelectedPositions(rows[..n], version, limit);
      UsedOneMore(rows, version);
      var before, positions := Selected(rows[..n], version, limit), Selected(rows, version, limit);
      if positions != before {
        assert Positions(positions) == Positions(before) + {n};
      }
    }
  }

  lemma SelectedCount(rows: seq<Version>, version: nat, limit: nat)
    ensures var positions := Selected(rows, version, limit);
      && |Positions(positions)| == |positions| && Positions(positions) <= Used(rows, version)
      && |positions| == if |Used(rows, version)| <= limit then |Used(rows, version)| else limit
  {
    SelectedSize(rows, version, limit);
    SelectedPositions(rows, version, limit);
  }

  // ----- what other writers and rotations keep -----

  // Every stored payload is an envelope that opens.
  predicate Stored(keys: UserKeys, v: Version) { (v.payload.Some? ==> IsSealed(v)) && Opens(keys, v) }

  ghost predicate Sound(keys: UserKeys, rows: seq<Version>) {
    forall i :: 0 <= i < |rows| ==> Stored(keys, rows[i])
  }

  ghost predicate KeysGrow(keys: UserKeys, more: UserKeys) {
    forall slot :: slot in keys ==> slot in more && more[slot] == keys[slot]
  }

  // No row changes what it says or disappears, and no envelope comes to use a stopped version.
  ghost predicate Kept(before: seq<Version>, after: seq<Version>, stopped: set<nat>) {
    && |before| <= |after|
    && (forall i :: 0 <= i < |before| ==> Readable(after[i]) == Readable(before[i]))
    && (forall i, version :: 0 <= i < |after| && version in stopped && UsesVersion(after[i], version) ==>
          i < |before| && after[i] == before[i])
  }

  lemma KeptTransitive(a: seq<Version>, b: seq<Version>, c: seq<Version>, stopped: set<nat>)
    requires Kept(a, b, stopped) && Kept(b, c, stopped)
    ensures Kept(a, c, stopped)
  {
  }

  lemma KeptUses(before: seq<Version>, after: seq<Version>, stopped: set<nat>, version: nat)
    requires Kept(before, after, stopped) && version in stopped
    ensures Used(after, version) <= Used(before, version)
  {
  }

  lemma SoundWithMoreKeys(keys: UserKeys, more: UserKeys, rows: seq<Version>)
    requires Sound(keys, rows) && KeysGrow(keys, more)
    ensures Sound(more, rows)
  {
    forall i | 0 <= i < |rows| ensures Stored(more, rows[i]) {
      assert Stored(keys, rows[i]);
    }
  }

  // Another process writes only with versions that are not stopped, and what it writes opens.
  predicate Allowed(rows: seq<Version>, keys: UserKeys, stopped: set<nat>, f: Foreign) {
    match f
    case Inserted(row) =>
      && (rows != [] ==> rows[|rows| - 1].sequence < row.sequence) && Stored(keys, row)
      && (IsSealed(row) ==> row.payload.value.envelope.keyVersion !in stopped)
    case Resealed(index, envelope) =>
      && index < |rows| && IsSealed(rows[index]) && envelope.keyVersion !in stopped
      && envelope.ciphertext.plaintext == rows[index].payload.value.envelope.ciphertext.plaintext
      && EnvelopeOpens(keys, RecordOf(rows[index]), envelope)
    case KeyCreated(slot, _) => slot !in keys
  }

  function RowsAfter(rows: seq<Version>, keys: UserKeys, stopped: set<nat>, f: Foreign): seq<Version> {
    if !Allowed(rows, keys, stopped, f) then rows else
      match f
      case Inserted(row) => rows + [row]
      case Resealed(index, envelope) => rows[index := rows[index].(payload := Some(Sealed(envelope)))]
      case KeyCreated(_, _) => rows
  }

  function KeysAfter(rows: seq<Version>, keys: UserKeys, stopped: set<nat>, f: Foreign): UserKeys {
    if f.KeyCreated? && Allowed(rows, keys, stopped, f) then keys[f.slot := f.key] else keys
  }

  // The sequence numbers increase from row to row.
  ghost predicate Ordered(rows: seq<Version>) {
    forall i :: 0 < i < |rows| ==> rows[i - 1].sequence < rows[i].sequence
  }

  lemma ForeignKeeps(rows: seq<Version>, keys: UserKeys, stopped: set<nat>, f: Foreign)
    ensures Kept(rows, RowsAfter(rows, keys, stopped, f), stopped)
    ensures KeysGrow(keys, KeysAfter(rows, keys, stopped, f))
    ensures Sound(keys, rows) ==> Sound(KeysAfter(rows, keys, stopped, f), RowsAfter(rows, keys, stopped, f))
    ensures Ordered(rows) ==> Ordered(RowsAfter(rows, keys, stopped, f))
  {
    var after := RowsAfter(rows, keys, stopped, f);
    if Sound(keys, rows) {
      forall i | 0 <= i < |after| ensures Stored(keys, after[i]) {
        assert i < |rows| ==> Stored(keys, rows[i]);
      }
      SoundWithMoreKeys(keys, KeysAfter(rows, keys, stopped, f), after);
    }
  }

  lemma {:induction false} OrderedApart(rows: seq<Version>, i: nat, j: nat)
    requires Ordered(rows) && i < j < |rows|
    ensures rows[i].sequence < rows[j].sequence
  {
    if i < j - 1 {
      OrderedApart(rows, i, j - 1);
    }
  }

  // ----- the conditional update -----

  // The rows an update of this row reaches.
  function Matching(rows: seq<Version>, row: Version): set<nat> {
    set i | 0 <= i < |rows| && rows[i].sequence == row.sequence && rows[i].payload == row.payload
  }

  // The update replaces the row it was decided for if its envelope is still the same, and no other.
  lemma UpdateHitsRow(rows: seq<Version>, row: Version, envelope: Envelope, i: nat)
    requires Ordered(rows) && i < |rows| && rows[i].sequence == row.sequence
    ensures Matching(rows, row) == if rows[i].payload == row.payload then {i} else {}
    ensures ReplacePayload(rows, row, envelope)
         == if rows[i].payload == row.payload then rows[i := rows[i].(payload := Some(Sealed(envelope)))] else rows
  {
    forall j | 0 <= j < |rows| && j != i ensures rows[j].sequence != row.sequence {
      if j < i {
        OrderedApart(rows, j, i);
      } else {
        OrderedApart(rows, i, j);
      }
    }
  }

  // ----- batches -----

  lemma {:induction false} SelectedInOrder(rows: seq<Version>, version: nat, limit: nat, j: nat, k: nat)
    requires j < k < |Selected(rows, version, limit)|
    ensures Selected(rows, version, limit)[j] < Selected(rows, version, limit)[k]
  {
    var before := Selected(rows[..|rows| - 1], version, limit);
    if k < |before| {
      SelectedInOrder(rows[..|rows| - 1], version, limit, j, k);
    }
  }

  lemma SelectedDistinct(rows: seq<Version>, version: nat, limit: nat, k: nat)
    requires k < |Selected(rows, version, limit)|
    ensures Selected(rows, version, limit)[k] !in Selected(rows, version, limit)[..k]
  {
    forall j | 0 <= j < k ensures Selected(rows, version, limit)[j] != Selected(rows, version, limit)[k] {
      SelectedInOrder(rows, version, limit, j, k);
    }
  }

  // The rows at the first k positions no longer have the version, where none can regain it.
  ghost predicate Left(rows: seq<Version>, positions: seq<nat>, k: nat, stopped: set<nat>, version: nat) {
    version in stopped ==> forall j :: 0 <= j < k && j < |positions| && positions[j] < |rows| ==> !UsesVersion(rows[positions[j]], version)
  }

  // Exactly the rows at the first k positions have changed, and to the current version.
  ghost predicate Moved(initial: seq<Version>, rows: seq<Version>, positions: seq<nat>, k: nat, current: nat) {
    && |rows| == |initial| && k <= |positions|
    && (forall i :: 0 <= i < |rows| && i !in positions[..k] ==> rows[i] == initial[i])
    && (forall j :: 0 <= j < k && positions[j] < |rows| ==> UsesVersion(rows[positions[j]], current))
  }

  lemma LeftLasts(before: seq<Version>, after: seq<Version>, positions: seq<nat>, k: nat, stopped: set<nat>, version: nat)
    requires Kept(before, after, stopped) && Left(before, positions, k, stopped, version)
    requires forall j :: 0 <= j < |positions| ==> positions[j] < |before|
    ensures Left(after, positions, k, stopped, version)
  {
  }

  lemma MovedOneMore(initial: seq<Version>, before: seq<Version>, after: seq<Version>, positions: seq<nat>, k: nat, current: nat)
    requires Moved(initial, before, positions, k, current) && k < |positions| && positions[k] < |before| && positions[k] !in positions[..k]
    requires |after| == |before| && after == before[positions[k] := after[positions[k]]] && UsesVersion(after[positions[k]], current)
    ensures Moved(initial, after, positions, k + 1, current)
  {
    assert forall i :: i in positions[..k + 1] <==> i in positions[..k] || i == positions[k];
    forall j | 0 <= j < k + 1 && positions[j] < |after| ensures UsesVersion(after[positions[j]], current) {
      assert j < k ==> positions[j] in positions[..k];
    }
  }

  // The figures of a batch that began on some rows and ended on others.
  ghost predicate Reports(r: BatchResult, initial: seq<Version>, rows: seq<Version>, from: nat, limit: nat, current: nat) {
    && r.fromVersion == from && r.toVersion == current && r.selected == |Selected(initial, from, limit)|
    && r.migrated + r.skipped == r.selected && r.remaining == |Used(rows, from)|
  }

  // A row that still has a version no one writes any more still has the envelope it was read with.
  lemma StillAsRead(before: seq<Version>, rows: seq<Version>, stopped: set<nat>, row: Version, index: nat, version: nat)
    requires Kept(before, rows, stopped) && version in stopped && index < |before|
    requires UsesVersion(before[index], version) ==> before[index] == row
    ensures UsesVersion(rows[index], version) ==> rows[index].payload == row.payload
  {
  }

  // What a batch leaves of a version that no one writes any more.
  lemma BatchReduces(initial: seq<Version>, rows: seq<Version>, version: nat, limit: nat, stopped: set<nat>)
    requires Kept(initial, rows, stopped) && version in stopped
    requires Left(rows, Selected(initial, version, limit), |Selected(initial, version, limit)|, stopped, version)
    ensures |Used(rows, version)| + |Selected(initial, version, limit)| <= |Used(initial, version)|
  {
    var positions := Selected(initial, version, limit);
    SelectedCount(initial, version, limit);
    KeptUses(initial, rows, stopped, version);
    assert Used(rows, version) <= Used(initial, version) - Positions(positions);
    SubsetSize(Used(rows, version), Used(initial, version) - Positions(positions));
  }

  lemma QuietBatchReduces(initial: seq<Version>, rows: seq<Version>, version: nat, limit: nat, current: nat)
    requires Moved(initial, rows, Selected(initial, version, limit), |Selected(initial, version, limit)|, current) && version != current
    ensures |Used(rows, version)| + |Selected(initial, version, limit)| == |Used(initial, version)|
  {
    var positions := Selected(initial, version, limit);
    SelectedCount(initial, version, limit);
    assert positions[..|positions|] == positions;
    assert Used(rows, version) == Used(initial, version) - Positions(positions);
  }

  lemma {:induction false} SubsetSize(a: set<nat>, b: set<nat>)
    requires a <= b
    ensures |a| <= |b|
  {
    if a != {} {
      var x :| x in a;
      SubsetSize(a - {x}, b - {x});
    }
  }

  class EnvelopeCodec {
    const keyring: Keyring
    // Key versions whose writers have been paused for good.
    const stopped: set<nat>
    var rows: seq<Version>
    var keys: UserKeys
    // Random bytes: every draw is a new number.
    var drawn: nat
    // What other processes do at each point where this one awaits; any script is possible.
    var others: seq<seq<Foreign>>

    ghost predicate Valid()
      reads this
    {
      && keyring.currentVersion in keyring.versions && keyring.currentVersion !in stopped
      && Ordered(rows)
    }

    // Lets the other processes run until this one continues.
    method Await()
      requires Valid()
      modifies this`rows, this`keys, this`others
      ensures Valid() && Kept(old(rows), rows, stopped) && KeysGrow(old(keys), keys)
      ensures old(Sound(keys, rows)) ==> Sound(keys, rows)
      ensures old(others) == [] ==> rows == old(rows) && others == []
    {
      if others != [] {
        var steps := others[0];
        others := others[1..];
        for i := 0 to |steps|
          invariant Valid() && Kept(old(rows), rows, stopped) && KeysGrow(old(keys), keys)
          invariant old(Sound(keys, rows)) ==> Sound(keys, rows)
        {
          ForeignKeeps(rows, keys, stopped, steps[i]);
          KeptTransitive(old(rows), rows, RowsAfter(rows, keys, stopped, steps[i]), stopped);
          rows, keys := RowsAfter(rows, keys, stopped, steps[i]), KeysAfter(rows, keys, stopped, steps[i]);
        }
      }
    }

    // The owner's key of a version, created first if it is the current one and missing.
    method UserKey(owner: string, version: nat) returns (key: Option<nat>)
      requires Valid()
      modifies this`rows, this`keys, this`others, this`drawn
      ensures Valid() && Kept(old(rows), rows, stopped) && KeysGrow(old(keys), keys)
      ensures old(Sound(keys, rows)) ==> Sound(keys, rows)
      ensures old(others) == [] ==> rows == old(rows) && others == []
      ensures key.Some? ==> version in keyring.versions && Slot(owner, version) in keys && keys[Slot(owner, version)] == key.value
      ensures key.None? ==> version != keyring.currentVersion && !(version in keyring.versions && Slot(owner, version) in old(keys))
    {
      var slot := Slot(owner, version);
      if slot !in keys && version == keyring.currentVersion {
        drawn := drawn + 1;
        Await();
        if slot !in keys {
          ghost var before := keys;
          keys := keys[slot := drawn];
          if old(Sound(keys, rows)) {
            SoundWithMoreKeys(before, keys, rows);
          }
        }
      }
      key := if slot in keys && version in keyring.versions then Some(keys[slot]) else None;
    }

    method Open(row: Version) returns (payload: Option<JsonObject>)
      requires Valid() && IsSealed(row)
      modifies this`rows, this`keys, this`others, this`drawn
      ensures Valid() && Kept(old(rows), rows, stopped) && KeysGrow(old(keys), keys)
      ensures old(Sound(keys, rows)) ==> Sound(keys, rows)
      ensures old(others) == [] ==> rows == old(rows) && others == []
      ensures payload.Some? ==> payload.value == row.payload.value.envelope.ciphertext.plaintext
      ensures row.payload.value.envelope.keyVersion in keyring.versions && Opens(old(keys), row) ==> payload.Some?
    {
      var envelope := row.payload.value.envelope;
      var key := UserKey(row.ownerSub, envelope.keyVersion);
      payload := if key.None? then None else Decrypt(key.value, row.ownerSub, row.collection, row.recordId, envelope);
    }

    method Seal(row: Version, payload: JsonObject) returns (envelope: Envelope)
      requires Valid()
      modifies this`rows, this`keys, this`others, this`drawn
      ensures Valid() && Kept(old(rows), rows, stopped) && KeysGrow(old(keys), keys)
      ensures old(Sound(keys, rows)) ==> Sound(keys, rows)
      ensures old(others) == [] ==> rows == old(rows) && others == []
      ensures envelope.keyVersion == keyring.currentVersion && envelope.ciphertext.plaintext == payload
      ensures EnvelopeOpens(keys, RecordOf(row), envelope)
    {
      var key := UserKey(row.ownerSub, keyring.currentVersion);
      drawn := drawn + 1;
      envelope := Encrypt(key.value, Aad(row.ownerSub, row.collection, row.recordId, keyring.currentVersion), drawn, payload);
    }

    // Replaces the envelope if it is still the one that was read; the number of changed rows.
    method Update(row: Version, envelope: Envelope, ghost index: nat) returns (changes: nat)
      requires Valid() && index < |rows| && rows[index].sequence == row.sequence && IsSealed(row)
      requires Readable(rows[index]) == Readable(row) && envelope.keyVersion == keyring.currentVersion
      requires envelope.ciphertext.plaintext == row.payload.value.envelope.ciphertext.plaintext
      requires EnvelopeOpens(keys, RecordOf(row), envelope)
      modifies this`rows
      ensures Valid() && Kept(old(rows), rows, stopped)
      ensures old(Sound(keys, rows)) ==> Sound(keys, rows)
      ensures rows == if changes == 1 then old(rows)[index := old(rows)[index].(payload := Some(Sealed(envelope)))] else old(rows)
      ensures changes == if old(rows)[index].payload == row.payload then 1 else 0
    {
      ghost var before := rows;
      UpdateHitsRow(rows, row, envelope, index);
      changes := |Matching(rows, row)|;
      rows := ReplacePayload(rows, row, envelope);
    }

    // Opens a row and seals its object under the current version; None means that it cannot be opened.
    method Reseal(row: Version) returns (envelope: Option<Envelope>)
      requires Valid() && IsSealed(row)
      modifies this`rows, this`keys, this`others, this`drawn
      ensures Valid() && Kept(old(rows), rows, stopped) && KeysGrow(old(keys), keys)
      ensures old(Sound(keys, rows)) ==> Sound(keys, rows)
      ensures old(others) == [] ==> rows == old(rows) && others == []
      ensures envelope.Some? ==>
        envelope.value.keyVersion == keyring.currentVersion && EnvelopeOpens(keys, RecordOf(row), envelope.value)
        && envelope.value.ciphertext.plaintext == row.payload.value.envelope.ciphertext.plaintext
      ensures row.payload.value.envelope.keyVersion in keyring.versions && Opens(old(keys), row) ==> envelope.Some?
    {
      var payload := Open(row);
      envelope := None;
      if payload.Some? {
        ghost var before := rows;
        var resealed := Seal(row, payload.value);
        KeptTransitive(old(rows), before, rows, stopped);
        before := rows;
        Await();
        KeptTransitive(old(rows), before, rows, stopped);
        envelope := Some(resealed);
      }
    }

    // Re-encrypts one row under the current version; None means that it cannot be opened.
    method ReencryptRow(row: Version, from: nat, ghost index: nat) returns (changes: Option<nat>)
      requires Valid() && UsesVersion(row, from) && from != keyring.currentVersion
      requires index < |rows| && Readable(rows[index]) == Readable(row)
      requires from in stopped && UsesVersion(rows[index], from) ==> rows[index] == row
      modifies this`rows, this`keys, this`others, this`drawn
      ensures Valid() && Kept(old(rows), rows, stopped) && KeysGrow(old(keys), keys)
      ensures old(Sound(keys, rows)) ==> Sound(keys, rows)
      ensures changes.Some? && from in stopped ==> !UsesVersion(rows[index], from)
      ensures changes.Some? ==> changes.value <= 1
      ensures from in keyring.versions && Opens(old(keys), row) ==> changes.Some?
      ensures old(others) == [] ==> others == []
      ensures old(others) == [] && changes.Some? && old(rows)[index] == row ==>
        changes.value == 1 && rows == old(rows)[index := rows[index]] && UsesVersion(rows[index], keyring.currentVersion)
    {
      var envelope := Reseal(row);
      changes := None;
      if envelope.Some? {
        ghost var before := rows;
        if from in stopped {
          StillAsRead(old(rows), rows, stopped, row, index, from);
        }
        var updated := Update(row, envelope.value, index);
        KeptTransitive(old(rows), before, rows, stopped);
        changes := Some(updated);
      }
    }

    // How many stored envelopes have a version.
    function EnvelopeCount(version: nat): nat
      reads this
    {
      |Used(rows, version)|
    }

    method ReencryptBatch(from: int, limit: int) returns (result: Result<BatchResult, CodecError>)
      requires Valid()
      modifies this`rows, this`keys, this`others, this`drawn
      ensures Valid() && Kept(old(rows), rows, stopped) && KeysGrow(old(keys), keys)
      ensures old(Sound(keys, rows)) ==> Sound(keys, rows)
      ensures from < 1 ==> result == Failure(InvalidVersion)
      ensures from >= 1 && from == keyring.currentVersion ==> result == Failure(CurrentVersion)
      ensures from >= 1 && from != keyring.currentVersion && !(1 <= limit <= 1000) ==> result == Failure(InvalidLimit)
      ensures from >= 1 && from != keyring.currentVersion && 1 <= limit <= 1000 && from in keyring.versions && old(Sound(keys, rows)) ==>
        result.Success?
      ensures result.Success? ==> 1 <= from && 1 <= limit && Reports(result.value, old(rows), rows, from, limit, keyring.currentVersion)
      ensures result.Success? && from in stopped ==> result.value.remaining + result.value.selected <= |Used(old(rows), from)|
      ensures old(others) == [] ==> others == []
      ensures result.Success? && old(others) == [] ==>
        result.value.migrated == result.value.selected
        && result.value.remaining + result.value.selected == |Used(old(rows), from)|
        && Moved(old(rows), rows, Selected(old(rows), from, limit), result.value.selected, keyring.currentVersion)
    {
      if from < 1 {
        result := Failure(InvalidVersion);
      } else if from == keyring.currentVersion {
        result := Failure(CurrentVersion);
      } else if limit < 1 || limit > 1000 {
        result := Failure(InvalidLimit);
      } else {
        var done, selected, migrated := Reencrypt(from, limit);
        result := if done then
          Success(BatchResult(from, keyring.currentVersion, selected, migrated, selected - migrated, EnvelopeCount(from)))
        else Failure(PayloadUnavailable);
      }
    }

    // The next row of a batch that began on `initial`.
    method ReencryptNext(row: Version, from: nat, ghost initial: seq<Version>, ghost limit: nat, ghost k: nat) returns (changes: Option<nat>)
      requires Valid() && from != keyring.currentVersion && Kept(initial, rows, stopped)
      requires k < |Selected(initial, from, limit)| && row == initial[Selected(initial, from, limit)[k]]
      requires Left(rows, Selected(initial, from, limit), k, stopped, from)
      modifies this`rows, this`keys, this`others, this`drawn
      ensures Valid() && Kept(initial, rows, stopped) && KeysGrow(old(keys), keys)
      ensures old(Sound(keys, rows)) ==> Sound(keys, rows)
      ensures changes.Some? ==> changes.value <= 1 && Left(rows, Selected(initial, from, limit), k + 1, stopped, from)
      ensures from in keyring.versions && Opens(old(keys), row) ==> changes.Some?
      ensures old(others) == [] ==> others == []
      ensures old(others) == [] && changes.Some? && Moved(initial, old(rows), Selected(initial, from, limit), k, keyring.currentVersion) ==>
        changes.value == 1 && Moved(initial, rows, Selected(initial, from, limit), k + 1, keyring.currentVersion)
    {
      ghost var before, positions := rows, Selected(initial, from, limit);
      SelectedDistinct(initial, from, limit, k);
      changes := ReencryptRow(row, from, positions[k]);
      KeptTransitive(initial, before, rows, stopped);
      LeftLasts(before, rows, positions, k, stopped, from);
      if old(others) == [] && changes.Some? && Moved(initial, before, positions, k, keyring.currentVersion) {
        MovedOneMore(initial, before, rows, positions, k, keyring.currentVersion);
      }
    }

    // The loop over the selected rows; it stops at a row that cannot be opened.
    method Reencrypt(from: nat, limit: nat) returns (done: bool, selected: nat, migrated: nat)
      requires Valid() && from != keyring.currentVersion
      modifies this`rows, this`keys, this`others, this`drawn
      ensures Valid() && Kept(old(rows), rows, stopped) && KeysGrow(old(keys), keys)
      ensures old(Sound(keys, rows)) ==> Sound(keys, rows)
      ensures selected == |Selected(old(rows), from, limit)| && migrated <= selected
      ensures from in keyring.versions && old(Sound(keys, rows)) ==> done
      ensures done && from in stopped ==> |Used(rows, from)| + selected <= |Used(old(rows), from)|
      ensures old(others) == [] ==> others == []
      ensures old(others) == [] && done ==>
        migrated == selected && |Used(rows, from)| + selected == |Used(old(rows), from)|
        && Moved(old(rows), rows, Selected(old(rows), from, limit), selected, keyring.currentVersion)
    {
      ghost var initial, initialKeys := rows, keys;
      var positions := Selected(rows, from, limit);
      var batch := seq(|positions|, k requires 0 <= k < |positions| && positions[k] < |rows| reads this => rows[positions[k]]);
      done, selected, migrated := true, |batch|, 0;
      var k := 0;
      while k < |batch| && done
        invariant Valid() && Kept(initial, rows, stopped) && KeysGrow(initialKeys, keys)
        invariant old(Sound(keys, rows)) ==> Sound(keys, rows)
        invariant k <= |batch| && migrated <= k
        invariant done ==> Left(rows, positions, k, stopped, from)
        invariant from in keyring.versions && old(Sound(keys, rows)) ==> done
        invariant old(others) == [] ==> others == [] && (done ==> migrated == k && Moved(initial, rows, positions, k, keyring.currentVersion))
        decreases |batch| - k
      {
        if old(Sound(keys, rows)) {
          assert Stored(initialKeys, initial[positions[k]]);
        }
        var changes := ReencryptNext(batch[k], from, initial, limit, k);
        done := changes.Some?;
        migrated := migrated + if changes.Some? then changes.value else 0;
        k := k + 1;
      }
      if done && from in stopped {
        BatchReduces(initial, rows, from, limit, stopped);
      }
      if done && old(others) == [] {
        QuietBatchReduces(initial, rows, from, limit, keyring.currentVersion);
      }
    }

    // Deletes the user keys of a version no stored envelope has any more; their number.
    method RetireUserKeys(version: int) returns (result: Result<nat, CodecError>)
      requires Valid()
      modifies this`rows, this`keys, this`others
      ensures Valid() && Kept(old(rows), rows, stopped)
      ensures version < 1 ==> result == Failure(InvalidVersion)
      ensures version >= 1 && version == keyring.currentVersion ==> result == Failure(CurrentVersion)
      ensures version >= 1 && version != keyring.currentVersion ==>
        if Used(old(rows), version) != {} then result == Failure(StillUsed) else result.Success?
      ensures result.Failure? ==> rows == old(rows) && keys == old(keys)
      ensures result.Success? ==> forall slot :: slot in keys ==> slot.keyVersion != version
      ensures result.Success? ==> version >= 1 && KeysGrow(WithoutVersion(old(keys), version), keys)
      ensures result.Success? && version in stopped && old(Sound(keys, rows)) ==> Sound(keys, rows)
    {
      if version < 1 {
        result := Failure(InvalidVersion);
      } else if version == keyring.currentVersion {
        result := Failure(CurrentVersion);
      } else if EnvelopeCount(version) != 0 {
        result := Failure(StillUsed);
      } else {
        assert Used(rows, version) == {};
        Await();
        ghost var before := keys;
        var retired := set slot | slot in keys && slot.keyVersion == version;
        keys := WithoutVersion(keys, version);
        if version in stopped && old(Sound(keys, rows)) {
          KeptUses(old(rows), rows, stopped, version);
          UnusedKeysAreNotMissed(before, rows, version);
        }
        result := Success(|retired|);
      }
    }

    // The operator's rotation: batches until nothing remains, then the retirement. The loop
    // ends, although other processes keep writing with other versions, and nothing is lost.
    method Rotate(from: nat, batchSize: nat) returns (retired: nat)
      requires Valid() && Sound(keys, rows) && 1 <= batchSize <= 1000
      requires from >= 1 && from in stopped && from in keyring.versions
      modifies this`rows, this`keys, this`others, this`drawn
      ensures Valid() && Kept(old(rows), rows, stopped)
      ensures Used(rows, from) == {} && forall slot :: slot in keys ==> slot.keyVersion != from
      ensures Sound(keys, rows)
    {
      var batch := ReencryptBatch(from, batchSize);
      while batch.value.remaining > 0
        invariant Valid() && Sound(keys, rows) && Kept(old(rows), rows, stopped)
        invariant batch.Success? && batch.value.remaining == |Used(rows, from)|
        decreases batch.value.remaining
      {
        ghost var before := rows;
        SelectedCount(rows, from, batchSize);
        batch := ReencryptBatch(from, batchSize);
        KeptTransitive(old(rows), before, rows, stopped);
      }
      ghost var before := rows;
      var result := RetireUserKeys(from);
      KeptTransitive(old(rows), before, rows, stopped);
      KeptUses(before, rows, stopped, from);
      retired := result.value;
    }
  }

  // Without envelopes of a version, its keys are not missed.
  lemma UnusedKeysAreNotMissed(keys: UserKeys, rows: seq<Version>, version: nat)
    requires Sound(keys, rows) && Used(rows, version) == {}
    ensures Sound(WithoutVersion(keys, version), rows)
  {
    forall i | 0 <= i < |rows| ensures Stored(WithoutVersion(keys, version), rows[i]) {
      assert Stored(keys, rows[i]) && i !in Used(rows, version);
    }
  }
}
