/** The offline store of lib/local-storage-service.ts: the queue of
    operations waiting to be synchronised and the cached tables, kept
    under keys with the "pts_form_" prefix in the browser's key/value
    storage. JSON text is abstracted: a key holds nothing, an empty or
    unparseable text, JSON null, or a parsed list. */
module LocalStorage {
  import opened Text
  import opened Js

  datatype OperationKind = Insert | Update | Delete

  /** `PendingOperation`. */
  datatype PendingOperation = PendingOperation(
    id: string,
    operation: OperationKind,
    table: string,
    data: JsValue,
    timestamp: int)

  /** What one storage key holds. */
  datatype Raw = Blank | Corrupt | JsonNull | Operations(ops: seq<PendingOperation>) | Rows(rows: seq<JsValue>)

  /** `StorageKey`. */
  datatype StorageKey = Pacientes | Avaliacoes | Secoes | Mif | PendingSync

  const StoragePrefix := "pts_form_"

  function KeyName(key: StorageKey): string
  {
    match key
    case Pacientes => "pacientes"
    case Avaliacoes => "avaliacoes"
    case Secoes => "secoes"
    case Mif => "mif"
    case PendingSync => "pendingSync"
  }

  /** The storage key of a `StorageKey`. */
  function FullKey(key: StorageKey): (r: string)
    ensures StartsWith(r, StoragePrefix)
  {
    StartsWithAppend(StoragePrefix, KeyName(key));
    StoragePrefix + KeyName(key)
  }

  /** `getPendingOperations`: the stored list, or [] when the key is
      missing, blank, unparseable, null or of the other shape. */
  function ReadPending(items: map<string, Raw>): (ops: seq<PendingOperation>)
    ensures FullKey(PendingSync) !in items ==> ops == []
    ensures FullKey(PendingSync) in items && items[FullKey(PendingSync)].Operations? ==>
      ops == items[FullKey(PendingSync)].ops
  {
    var key := FullKey(PendingSync);
    if key in items && items[key].Operations? then items[key].ops else []
  }

  /** `getLocalPacientes` and the like: the stored rows, or []. */
  function ReadRows(items: map<string, Raw>, key: StorageKey): (rows: seq<JsValue>)
    ensures FullKey(key) in items && items[FullKey(key)].Rows? ==> rows == items[FullKey(key)].rows
    ensures !(FullKey(key) in items && items[FullKey(key)].Rows?) ==> rows == []
  {
    var k := FullKey(key);
    if k in items && items[k].Rows? then items[k].rows else []
  }

  /** `ops.filter(op => op.id !== id)`. */
  function RemoveOperation(ops: seq<PendingOperation>, id: string): (r: seq<PendingOperation>)
    ensures |r| <= |ops|
    ensures forall i :: 0 <= i < |r| ==> r[i].id != id && r[i] in ops
    ensures forall op :: op in ops && op.id != id ==> op in r
  {
    if |ops| == 0 then []
    else
      var n := |ops| - 1;
      var prev := RemoveOperation(ops[..n], id);
      assert forall op :: op in ops[..n] ==> op in ops;
      assert forall op :: op in ops ==> op in ops[..n] || op == ops[n];
      if ops[n].id != id then prev + [ops[n]] else prev
  }

  /** Removing an id no operation has keeps the list. */
  lemma {:induction false} RemoveAbsent(ops: seq<PendingOperation>, id: string)
    requires forall i :: 0 <= i < |ops| ==> ops[i].id != id
    ensures RemoveOperation(ops, id) == ops
  {
    if |ops| > 0 {
      var n := |ops| - 1;
      RemoveAbsent(ops[..n], id);
      assert ops[..n] + [ops[n]] == ops;
    }
  }

  /** Clearing the operation just added, under a fresh id, restores the
      earlier queue. */
  lemma RemoveJustAdded(ops: seq<PendingOperation>, op: PendingOperation)
    requires forall i :: 0 <= i < |ops| ==> ops[i].id != op.id
    ensures RemoveOperation(ops + [op], op.id) == ops
  {
    assert (ops + [op])[..|ops|] == ops;
    RemoveAbsent(ops, op.id);
  }

  /** The browser's key/value storage as this service sees it. */
  class LocalStore {
    var items: map<string, Raw>

    constructor(items: map<string, Raw>)
      ensures this.items == items
    {
      this.items := items;
    }

    /** `addPendingOperation`: one operation appended at the end of the
        stored queue. Its id (a random UUID) and timestamp (the clock) are
        parameters. */
    method AddPending(id: string, operation: OperationKind, table: string, data: JsValue, timestamp: int)
      modifies this
      ensures items == old(items)[FullKey(PendingSync) := Operations(
        old(ReadPending(items)) + [PendingOperation(id, operation, table, data, timestamp)])]
      ensures ReadPending(items) == old(ReadPending(items)) + [PendingOperation(id, operation, table, data, timestamp)]
    {
      var pending := ReadPending(items);
      pending := pending + [PendingOperation(id, operation, table, data, timestamp)];
      items := items[FullKey(PendingSync) := Operations(pending)];
    }

    /** `clearPendingOperation`: the queue without the operations with
        that id, written back. */
    method ClearPending(id: string)
      modifies this
      ensures items == old(items)[FullKey(PendingSync) := Operations(RemoveOperation(old(ReadPending(items)), id))]
      ensures ReadPending(items) == RemoveOperation(old(ReadPending(items)), id)
    {
      var filtered := RemoveOperation(ReadPending(items), id);
      items := items[FullKey(PendingSync) := Operations(filtered)];
    }

    /** `hasPendingSyncData`. */
    method HasPending() returns (r: bool)
      ensures r <==> |ReadPending(items)| > 0
    {
      r := |ReadPending(items)| > 0;
    }

    /** `setLocalPacientes` and the like. */
    method SetRows(key: StorageKey, rows: seq<JsValue>)
      modifies this
      ensures items == old(items)[FullKey(key) := Rows(rows)]
      ensures ReadRows(items, key) == rows
    {
      items := items[FullKey(key) := Rows(rows)];
    }

    /** `clearAllLocalData`: every key with the prefix is removed, one by
        one; the other keys stay. */
    method ClearAll()
      modifies this
      ensures items == map k | k in old(items) && !StartsWith(k, StoragePrefix) :: old(items)[k]
    {
      var keys := items.Keys;
      ghost var original := items;
      while keys != {}
        invariant keys <= original.Keys
        invariant forall k :: k in items <==> k in original && (k in keys || !StartsWith(k, StoragePrefix))
        invariant forall k :: k in items ==> items[k] == original[k]
        decreases keys
      {
        var k :| k in keys;
        if StartsWith(k, StoragePrefix) {
          items := items - {k};
        }
        keys := keys - {k};
      }
    }
  }

  /** After clearing, every key of the service is gone and the queue
      reads as empty. */
  lemma ClearedReadsEmpty(items: map<string, Raw>, key: StorageKey)
    ensures FullKey(key) !in (map k | k in items && !StartsWith(k, StoragePrefix) :: items[k])
    ensures ReadPending(map k | k in items && !StartsWith(k, StoragePrefix) :: items[k]) == []
  {
  }
}
