/** What a device is for: syncing a folder, or holding content for the others. */
module Roles {
  import Paths

  datatype PinSet = PinSet(prefixes: seq<string>)

  function TrimSlashes(s: string): string {
    if s != "" && s[|s| - 1] == '/' then TrimSlashes(s[..|s| - 1]) else s
  }

  /** Only paths under these prefixes: slashes after one say nothing, and an empty one
      is dropped. */
  function UnderPrefixes(prefixes: seq<string>): PinSet {
    if prefixes == [] then PinSet([])
    else
      var first := TrimSlashes(prefixes[0]);
      PinSet((if first == "" then [] else [first]) + UnderPrefixes(prefixes[1..]).prefixes)
  }

  predicate PinsWant(pins: PinSet, path: string) {
    pins.prefixes == [] || exists i | 0 <= i < |pins.prefixes| :: Paths.Under(pins.prefixes[i], path)
  }

  datatype Role = Syncing | Replica(pins: PinSet)

  predicate Wants(role: Role, path: string) { role.Syncing? || PinsWant(role.pins, path) }

  /** A prefix's components, its trailing slashes apart, are the first of the path's. */
  ghost predicate Beneath(prefix: string, path: string) {
    Paths.Split(TrimSlashes(prefix)) <= Paths.Split(path)
  }

  lemma {:induction false} PrefixesKept(prefixes: seq<string>)
    ensures forall t :: t in UnderPrefixes(prefixes).prefixes <==>
      t != "" && exists i | 0 <= i < |prefixes| :: TrimSlashes(prefixes[i]) == t
  {
    if prefixes != [] {
      PrefixesKept(prefixes[1..]);
      var rest := UnderPrefixes(prefixes[1..]).prefixes;
      forall t ensures t in UnderPrefixes(prefixes).prefixes <==>
        t != "" && exists i | 0 <= i < |prefixes| :: TrimSlashes(prefixes[i]) == t
      {
        if t in rest {
          var i :| 0 <= i < |prefixes[1..]| && TrimSlashes(prefixes[1..][i]) == t;
          assert TrimSlashes(prefixes[i + 1]) == t;
        }
        if i :| 0 <= i < |prefixes| && TrimSlashes(prefixes[i]) == t && t != "" {
          assert i > 0 ==> prefixes[1..][i - 1] == prefixes[i];
        }
      }
    }
  }

  /** A subset replica holds a path exactly when one of the prefixes it was given names
      the first components of it -- or when none of them names anything: prefixes all
      blank or all slashes ask for nothing and get everything. */
  lemma ReplicaHolds(prefixes: seq<string>, path: string)
    ensures Wants(Replica(UnderPrefixes(prefixes)), path) <==>
      (forall i | 0 <= i < |prefixes| :: TrimSlashes(prefixes[i]) == "")
      || exists i | 0 <= i < |prefixes| :: TrimSlashes(prefixes[i]) != "" && Beneath(prefixes[i], path)
  {
    PrefixesKept(prefixes);
    var kept := UnderPrefixes(prefixes).prefixes;
    hide UnderPrefixes, TrimSlashes, Paths.Split, Paths.Under;
    forall i | 0 <= i < |kept| ensures Paths.Under(kept[i], path) <==> Paths.Split(kept[i]) <= Paths.Split(path) {
      Paths.UnderIsComponentPrefix(kept[i], path);
    }
    if kept == [] {
      forall i | 0 <= i < |prefixes| ensures TrimSlashes(prefixes[i]) == "" {
        assert TrimSlashes(prefixes[i]) !in kept;
      }
    } else {
      assert kept[0] in kept;
      if k :| 0 <= k < |kept| && Paths.Under(kept[k], path) {
        assert kept[k] in kept;
        var i :| 0 <= i < |prefixes| && TrimSlashes(prefixes[i]) == kept[k];
        assert Beneath(prefixes[i], path);
      }
      if i :| 0 <= i < |prefixes| && TrimSlashes(prefixes[i]) != "" && Beneath(prefixes[i], path) {
        assert TrimSlashes(prefixes[i]) in kept;
        var k :| 0 <= k < |kept| && kept[k] == TrimSlashes(prefixes[i]);
        assert Paths.Under(kept[k], path);
      }
    }
  }
}
