/**
 * The list of held keys and the snapshot handed to the render callback each frame.
 *
 * The list is a sequence, not a set: a repeated keydown appends the key again, and a
 * keyup removes every occurrence of it.
 */
module KeyState {

  /** The list after a keydown of `key`. */
  function Pressed(keys: seq<string>, key: string): (r: seq<string>)
    ensures |r| == |keys| + 1 && r[..|keys|] == keys && r[|keys|] == key
  {
    keys + [key]
  }

  /** The list after a keyup of `key`: every entry equal to it is dropped, the rest keep their order. */
  function Released(keys: seq<string>, key: string): (r: seq<string>)
    ensures key !in r
    ensures multiset(r) == multiset(keys)[key := 0]
  {
    if keys == [] then []
    else
      assert keys == [keys[0]] + keys[1..];
      (if keys[0] == key then [] else [keys[0]]) + Released(keys[1..], key)
  }

  /** The left fold renderLoop runs over the list: starting from `acc`, each listed key in turn is set to true. */
  function SnapshotFrom(acc: map<string, bool>, keys: seq<string>): (m: map<string, bool>)
    ensures forall k :: k in m <==> k in acc || k in keys
    ensures forall k :: k in m ==> m[k] == (k in keys || acc[k])
    decreases |keys|
  {
    if keys == [] then acc
    else SnapshotFrom(acc[keys[0] := true], keys[1..])
  }

  /** The frame's key snapshot: exactly the listed keys, each mapped to `true`; no `false` entries. */
  function Snapshot(keys: seq<string>): (m: map<string, bool>)
    ensures forall k :: k in m <==> k in keys
    ensures forall k :: k in m ==> m[k]
  {
    SnapshotFrom(map[], keys)
  }

  /** Filtering distributes over concatenation and keeps the order of what stays. */
  lemma {:induction false} ReleasedAppend(s: seq<string>, t: seq<string>, key: string)
    ensures Released(s + t, key) == Released(s, key) + Released(t, key)
  {
    if s == [] {
      assert s + t == t;
    } else {
      assert (s + t)[1..] == s[1..] + t;
      ReleasedAppend(s[1..], t, key);
    }
  }

  /** Releasing a key that is not held leaves the list as it was. */
  lemma {:induction false} ReleasedNotHeld(keys: seq<string>, key: string)
    requires key !in keys
    ensures Released(keys, key) == keys
  {
    if keys != [] {
      ReleasedNotHeld(keys[1..], key);
    }
  }

  /** A second keyup of the same key changes nothing. */
  lemma ReleasedTwice(keys: seq<string>, key: string)
    ensures Released(Released(keys, key), key) == Released(keys, key)
  {
    ReleasedNotHeld(Released(keys, key), key);
  }

  /** A keyup undoes a keydown of a key that was not held before. */
  lemma PressThenRelease(keys: seq<string>, key: string)
    requires key !in keys
    ensures Released(Pressed(keys, key), key) == keys
  {
    ReleasedAppend(keys, [key], key);
    ReleasedNotHeld(keys, key);
    assert Released([key], key) == [];
  }

  /** A keyup of other keys keeps `key` in the list exactly as often as before. */
  lemma ReleaseOther(keys: seq<string>, key: string, other: string)
    requires other != key
    ensures multiset(Released(keys, other))[key] == multiset(keys)[key]
  {
  }

  /** After a keydown the snapshot maps the key to true and is otherwise unchanged. */
  lemma SnapshotPressed(keys: seq<string>, key: string)
    ensures Snapshot(Pressed(keys, key)) == Snapshot(keys)[key := true]
  {
    var m, n := Snapshot(Pressed(keys, key)), Snapshot(keys)[key := true];
    assert forall k :: k in Pressed(keys, key) <==> k in keys || k == key;
    assert m.Keys == n.Keys;
  }

  /** After a keyup the key is gone from the snapshot and nothing else changes. */
  lemma SnapshotReleased(keys: seq<string>, key: string)
    ensures Snapshot(Released(keys, key)) == Snapshot(keys) - {key}
  {
    var m, n := Snapshot(Released(keys, key)), Snapshot(keys) - {key};
    forall k ensures k in Released(keys, key) <==> k in keys && k != key {
      assert k in Released(keys, key) <==> k in multiset(Released(keys, key));
      assert k in keys <==> k in multiset(keys);
    }
    assert m.Keys == n.Keys;
  }
}
