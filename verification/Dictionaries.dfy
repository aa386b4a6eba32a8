/** Dictionaries keyed by client, and loops that rewrite some of their entries. */
module Dictionaries {
  import opened LiveRows

  function Get<V>(m: map<ClientId, V>, c: ClientId): Option<V> {
    if c in m then Some(m[c]) else None
  }

  /** `base` with the entries of `target` written over it for the clients in `done`. */
  ghost function Overlay<V>(base: map<ClientId, V>, target: map<ClientId, V>, done: set<ClientId>)
    : (r: map<ClientId, V>)
    requires done <= target.Keys
    ensures r.Keys == base.Keys + done
  {
    map c | c in base.Keys + done :: if c in done then target[c] else base[c]
  }

  lemma {:induction false} OverlayStep<V>(base: map<ClientId, V>, target: map<ClientId, V>, done: set<ClientId>,
                                          c: ClientId)
    requires done <= target.Keys && c in target && c !in done
    ensures Overlay(base, target, done + {c}) == Overlay(base, target, done)[c := target[c]]
    ensures Get(Overlay(base, target, done), c) == Get(base, c)
  {}

  lemma {:induction false} MoveOne(done: set<ClientId>, todo: set<ClientId>, c: ClientId)
    requires c in todo && done !! todo
    ensures (done + {c}) + (todo - {c}) == done + todo && (done + {c}) !! (todo - {c})
  {}

  lemma {:induction false} SameEntries<V>(a: map<ClientId, V>, b: map<ClientId, V>)
    requires a.Keys == b.Keys && forall c :: c in a.Keys ==> Get(a, c) == Get(b, c)
    ensures a == b
  {
    forall c | c in a.Keys
      ensures a[c] == b[c]
    {
      assert Get(a, c) == Get(b, c);
    }
  }

  lemma {:induction false} SameDictionary<V>(a: map<ClientId, V>, b: map<ClientId, V>)
    requires forall c :: Get(a, c) == Get(b, c)
    ensures a == b
  {
    forall c
      ensures c in a <==> c in b
    {
      assert Get(a, c) == Get(b, c);
    }
    assert a.Keys == b.Keys;
    SameEntries(a, b);
  }
}
