/** The tags of sessions, kept both by session and by tag. */
module SessionTags {

  type Token = nat
  type ByTag = map<string, map<string, set<Token>>>
  type BySession = map<Token, map<string, string>>

  ghost predicate Listed(byTag: ByTag, key: string, value: string, idx: Token) {
    key in byTag && value in byTag[key] && idx in byTag[key][value]
  }

  ghost predicate Tagged(bySession: BySession, key: string, value: string, idx: Token) {
    idx in bySession && key in bySession[idx] && bySession[idx][key] == value
  }

  ghost predicate NoneEmpty(byTag: ByTag) {
    forall key | key in byTag ::
      byTag[key] != map[] && forall value | value in byTag[key] :: byTag[key][value] != {}
  }

  /** The two maps hold the same triples, and no map or set is kept when it is empty. */
  ghost predicate Inverse(byTag: ByTag, bySession: BySession) {
    && NoneEmpty(byTag)
    && forall key, value, idx :: Listed(byTag, key, value, idx) <==> Tagged(bySession, key, value, idx)
  }

  /** Only one map by tag is the inverse of a map by session. */
  lemma InverseUnique(a: ByTag, b: ByTag, bySession: BySession)
    requires Inverse(a, bySession) && Inverse(b, bySession)
    ensures a == b
  {
    SameKeys(a, b, bySession);
    SameKeys(b, a, bySession);
    assert a.Keys == b.Keys;
    forall key | key in a
      ensures a[key] == b[key]
    {
      assert a[key].Keys == b[key].Keys;
      assert forall value | value in a[key] :: a[key][value] == b[key][value];
    }
  }

  lemma SameKeys(a: ByTag, b: ByTag, bySession: BySession)
    requires Inverse(a, bySession) && Inverse(b, bySession)
    ensures forall key | key in a :: key in b
    ensures forall key, value | key in a && value in a[key] :: value in b[key] && a[key][value] <= b[key][value]
  {
    forall key | key in a
      ensures key in b
    {
      var value :| value in a[key];
      var idx :| idx in a[key][value];
      assert Listed(a, key, value, idx);
      assert Listed(b, key, value, idx);
    }
    forall key, value | key in a && value in a[key]
      ensures value in b[key] && a[key][value] <= b[key][value]
    {
      var some :| some in a[key][value];
      assert Listed(a, key, value, some) && Listed(b, key, value, some);
      forall idx | idx in a[key][value]
        ensures idx in b[key][value]
      {
        assert Listed(a, key, value, idx) && Listed(b, key, value, idx);
      }
    }
  }

  /** The session with one more tag, or with another value for it. */
  function WithTag(bySession: BySession, idx: Token, key: string, value: string): BySession {
    bySession[idx := (if idx in bySession then bySession[idx] else map[])[key := value]]
  }

  /** The map by tag without one session under one tag. */
  function Unlisted(byTag: ByTag, key: string, value: string, idx: Token): ByTag
    requires key in byTag && value in byTag[key]
  {
    var sessions := byTag[key][value] - {idx};
    var values := if sessions == {} then byTag[key] - {value} else byTag[key][value := sessions];
    if values == map[] then byTag - {key} else byTag[key := values]
  }

  lemma UnlistedValues(byTag: ByTag, key: string, value: string, idx: Token, v: string, i: Token)
    requires key in byTag && value in byTag[key]
    ensures Listed(Unlisted(byTag, key, value, idx), key, v, i) <==>
            Listed(byTag, key, v, i) && !(v == value && i == idx)
  {
    var sessions := byTag[key][value] - {idx};
    var values := if sessions == {} then byTag[key] - {value} else byTag[key][value := sessions];
    assert values.Keys == if sessions == {} then byTag[key].Keys - {value} else byTag[key].Keys;
    assert i in sessions <==> i in byTag[key][value] && i != idx;
    assert v in values ==> values != map[];
  }

  lemma UnlistedExactly(byTag: ByTag, key: string, value: string, idx: Token)
    requires key in byTag && value in byTag[key]
    ensures forall k, v, i :: Listed(Unlisted(byTag, key, value, idx), k, v, i) <==>
              Listed(byTag, k, v, i) && !(k == key && v == value && i == idx)
  {
    forall k, v, i
      ensures Listed(Unlisted(byTag, key, value, idx), k, v, i) <==>
              Listed(byTag, k, v, i) && !(k == key && v == value && i == idx)
    {
      UnlistedValues(byTag, key, value, idx, v, i);
    }
  }

  /** The map by tag with one more session under one tag. */
  function Inserted(byTag: ByTag, key: string, value: string, idx: Token): ByTag {
    var values := if key in byTag then byTag[key] else map[];
    var sessions := if value in values then values[value] else {};
    byTag[key := values[value := sessions + {idx}]]
  }

  lemma InsertedExactly(byTag: ByTag, key: string, value: string, idx: Token)
    ensures forall k, v, i :: Listed(Inserted(byTag, key, value, idx), k, v, i) <==>
              Listed(byTag, k, v, i) || (k == key && v == value && i == idx)
  {
  }

  lemma WithTagExactly(bySession: BySession, idx: Token, key: string, value: string)
    ensures forall k, v, i :: Tagged(WithTag(bySession, idx, key, value), k, v, i) <==>
              if i == idx && k == key then v == value else Tagged(bySession, k, v, i)
  {
  }

  /** With the old value taken out and the new one put in, the map by tag is the inverse again. */
  lemma RetaggedInverse(byTag: ByTag, without: ByTag, bySession: BySession, idx: Token, key: string, value: string)
    requires Inverse(byTag, bySession) && NoneEmpty(without)
    requires forall k, v, i :: Listed(without, k, v, i) <==> Listed(byTag, k, v, i) && !(k == key && i == idx)
    ensures Inverse(Inserted(without, key, value, idx), WithTag(bySession, idx, key, value))
  {
    InsertedExactly(without, key, value, idx);
    WithTagExactly(bySession, idx, key, value);
  }

  class SessionTagIndex {
    var byTag: ByTag
    var bySession: BySession

    ghost predicate Valid()
      reads this
    {
      Inverse(byTag, bySession)
    }

    constructor ()
      ensures Valid() && bySession == map[]
    {
      byTag, bySession := map[], map[];
    }

    /** Takes one session out of a tag; false when it is not there. */
    method RemoveWithTag(idx: Token, key: string, value: string) returns (ok: bool)
      requires NoneEmpty(byTag)
      modifies this`byTag
      ensures NoneEmpty(byTag)
      ensures ok == Listed(old(byTag), key, value, idx)
      ensures forall k, v, i :: Listed(byTag, k, v, i) <==>
                Listed(old(byTag), k, v, i) && !(k == key && v == value && i == idx)
    {
      if key !in byTag || value !in byTag[key] {
        return false;
      }
      UnlistedExactly(byTag, key, value, idx);
      var valueToSessions := byTag[key];
      var sessions := valueToSessions[value];
      if idx !in sessions {
        return false;
      }
      sessions := sessions - {idx};
      valueToSessions := if sessions == {} then valueToSessions - {value} else valueToSessions[value := sessions];
      byTag := if valueToSessions == map[] then byTag - {key} else byTag[key := valueToSessions];
      return true;
    }

    /** Tags a session; a tag it has already takes the new value. */
    method Add(idx: Token, key: string, value: string)
      requires Valid()
      modifies this
      ensures Valid() && bySession == WithTag(old(bySession), idx, key, value)
    {
      var tags := if idx in bySession then bySession[idx] else map[];
      bySession := bySession[idx := tags[key := value]];
      if key in tags {
        if tags[key] == value {
          assert tags[key := value] == tags;
          assert bySession == old(bySession);
          return;
        }
        assert Listed(byTag, key, tags[key], idx) by {
          assert Tagged(old(bySession), key, tags[key], idx);
        }
        var ok := RemoveWithTag(idx, key, tags[key]);
        assert ok;
      }
      RetaggedInverse(old(byTag), byTag, old(bySession), idx, key, value);
      assert !Listed(byTag, key, value, idx);
      var values := if key in byTag then byTag[key] else map[];
      var sessions := if value in values then values[value] else {};
      byTag := byTag[key := values[value := sessions + {idx}]];
    }

    /** Takes a session out of every tag; false when it has none. */
    method Remove(idx: Token) returns (found: bool)
      requires Valid()
      modifies this
      ensures Valid() && found == (idx in old(bySession)) && bySession == old(bySession) - {idx}
    {
      if idx !in bySession {
        return false;
      }
      var tags := bySession[idx];
      bySession := bySession - {idx};
      var keys := tags.Keys;
      while keys != {}
        invariant keys <= tags.Keys && bySession == old(bySession) - {idx} && NoneEmpty(byTag)
        invariant forall k, v, i :: Listed(byTag, k, v, i) <==>
                    Tagged(bySession, k, v, i) || (i == idx && k in keys && tags[k] == v)
        decreases |keys|
      {
        var key :| key in keys;
        assert Listed(byTag, key, tags[key], idx);
        var ok := RemoveWithTag(idx, key, tags[key]);
        assert ok;
        keys := keys - {key};
      }
      return true;
    }

    /** The number of sessions with a tag. */
    method CountWithTag(key: string, value: string) returns (count: nat)
      requires Valid()
      ensures count == |set idx | idx in bySession && Tagged(bySession, key, value, idx)|
    {
      ghost var tagged := set idx | idx in bySession && Tagged(bySession, key, value, idx);
      if key !in byTag || value !in byTag[key] {
        forall idx
          ensures idx !in tagged
        {
          assert !Listed(byTag, key, value, idx);
        }
        return 0;
      }
      assert tagged == byTag[key][value] by {
        forall idx
          ensures idx in tagged <==> idx in byTag[key][value]
        {
          assert Listed(byTag, key, value, idx) <==> Tagged(bySession, key, value, idx);
        }
      }
      return |byTag[key][value]|;
    }
  }
}
