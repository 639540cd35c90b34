/** JSON objects as the stores keep them, and the merge of changed keys into one. */
module Documents {
  import opened JsonTree

  type Fields = map<string, Json>

  datatype Patch = Patch(values: map<string, Json>, onlyMissing: bool)

  /** Whether the patch decides about `key`. */
  predicate Decides(s: Fields, p: Patch, key: string) {
    key in p.values && !(p.onlyMissing && key in s)
  }

  /** The object after a patch: a null removes its key. */
  function Merged(s: Fields, p: Patch): Fields {
    map key | key in s.Keys + p.values.Keys && !(Decides(s, p, key) && p.values[key].Null?) ::
      if Decides(s, p, key) then p.values[key] else s[key]
  }

  /** One key of a patch, given what the others decided about it. */
  function PutOne(s: Fields, onlyMissing: bool, key: string, value: Json): Fields {
    if onlyMissing && key in s then s else if value.Null? then s - {key} else s[key := value]
  }

  lemma MergedStep(s: Fields, p: Patch, pending: set<string>, key: string)
    requires key in pending && pending <= p.values.Keys
    ensures PutOne(Merged(s, p.(values := p.values - pending)), p.onlyMissing, key, p.values[key])
            == Merged(s, p.(values := p.values - (pending - {key})))
  {
    var before, after := p.(values := p.values - pending), p.(values := p.values - (pending - {key}));
    assert forall k :: k != key ==> Decides(s, before, k) == Decides(s, after, k);
  }
}
