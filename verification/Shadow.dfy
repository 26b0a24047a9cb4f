/**
 The pending-writes shadow: the in-memory map from an entry to the write still draining for it.
 */
module Shadow {
  import opened Common
  import opened Identity

  /** One entry of one namespace; every namespace has a shadow and stores of its own. */
  datatype Slot = Slot(namespace: string, id: EntryId)

  /** Identity of one `Arc` allocation. */
  type Token = nat

  predicate HoldsToken<K(==)>(shadow: map<K, Token>, k: K, t: Token) {
    k in shadow && shadow[k] == t
  }

  function RemoveIf<K(==)>(shadow: map<K, Token>, k: K, t: Token): map<K, Token> {
    if HoldsToken(shadow, k, t) then shadow - {k} else shadow
  }

  /** A shadow buffer; each method is one critical section of its mutex. */
  class PendingWrites<K(==)> {
    var entries: map<K, Token>

    constructor ()
      ensures entries == map[]
    {
      entries := map[];
    }

    method Insert(k: K, t: Token)
      modifies this
      ensures entries == old(entries)[k := t]
    {
      entries := entries[k := t];
    }

    method Get(k: K) returns (t: Option<Token>)
      ensures t == if k in entries then Some(entries[k]) else None
    {
      t := if k in entries then Some(entries[k]) else None;
    }

    method Holds(k: K, t: Token) returns (held: bool)
      ensures held <==> HoldsToken(entries, k, t)
    {
      held := k in entries && entries[k] == t;
    }

    method Remove(k: K) returns (removed: bool)
      modifies this
      ensures entries == old(entries) - {k} && removed == (k in old(entries))
    {
      removed := k in entries;
      entries := entries - {k};
    }

    method RemoveIfHeld(k: K, t: Token) returns (removed: bool)
      modifies this
      ensures entries == RemoveIf(old(entries), k, t) && removed == HoldsToken(old(entries), k, t)
    {
      removed := false;
      if k in entries && entries[k] == t {
        entries := entries - {k};
        removed := true;
      }
    }
  }
}
