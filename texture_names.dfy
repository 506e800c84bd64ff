/**
  The list of texture names kept by the contained mesh (`cm.textures`) and the linear
  search (`std::find`) the mesh model runs over it.
*/
module TextureNames {

  /** The position of the first occurrence of `x` in `s`, or `|s|` when there is none
      (the end iterator). */
  function IndexOf<T(==)>(s: seq<T>, x: T): (i: nat)
    ensures i <= |s|
    ensures i < |s| ==> s[i] == x
    ensures forall j :: 0 <= j < i ==> s[j] != x
    ensures i < |s| <==> x in s
  {
    if |s| == 0 then 0
    else if s[0] == x then 0
    else 1 + IndexOf(s[1..], x)
  }

  /** `std::find(names.begin(), names.end(), name)`. */
  method FindName(names: seq<string>, name: string) returns (i: nat)
    ensures i == IndexOf(names, name)
  {
    i := 0;
    while i < |names| && names[i] != name
      invariant i <= |names|
      invariant forall j :: 0 <= j < i ==> names[j] != name
    {
      i := i + 1;
    }
  }

  /** No name occurs twice. */
  predicate NoDuplicates<T(==)>(s: seq<T>) {
    forall i, j :: 0 <= i < j < |s| ==> s[i] != s[j]
  }

  /** The list after its first `oldName` is overwritten with `newName`
      (`*std::find(...) = newName`). */
  function Renamed<T(==)>(s: seq<T>, oldName: T, newName: T): (r: seq<T>)
    requires oldName in s
    ensures |r| == |s|
    ensures r[IndexOf(s, oldName)] == newName
    ensures forall j :: 0 <= j < |s| && j != IndexOf(s, oldName) ==> r[j] == s[j]
    ensures newName in r
    ensures forall x :: x in s && x != oldName ==> x in r
  {
    s[IndexOf(s, oldName) := newName]
  }

  /** Renaming to a name that is not yet listed keeps the list free of duplicates,
      and `oldName` is then no longer listed. */
  lemma {:induction false} RenameKeepsNoDuplicates<T>(s: seq<T>, oldName: T, newName: T)
    requires NoDuplicates(s) && oldName in s && newName !in s
    ensures NoDuplicates(Renamed(s, oldName, newName))
    ensures oldName !in Renamed(s, oldName, newName)
  {
    var k, r := IndexOf(s, oldName), Renamed(s, oldName, newName);
    forall i, j | 0 <= i < j < |r| ensures r[i] != r[j] {
      if i != k && j != k {
        assert r[i] == s[i] && r[j] == s[j];
      } else if i == k {
        assert r[j] == s[j];
      } else {
        assert r[i] == s[i];
      }
    }
    forall j | 0 <= j < |r| ensures r[j] != oldName {
      if j != k {
        assert r[j] == s[j] && s[k] == oldName;
      }
    }
  }

  /** Renaming to a name that is already listed makes that name occur twice. */
  lemma RenameOntoListedDuplicates<T>(s: seq<T>, oldName: T, newName: T)
    requires oldName in s && newName in s && oldName != newName
    ensures !NoDuplicates(Renamed(s, oldName, newName))
  {
    var k, r := IndexOf(s, oldName), Renamed(s, oldName, newName);
    var m := IndexOf(s, newName);
    assert m != k && r[m] == newName && r[k] == newName;
  }

  /** Renaming to a name that is not listed and then renaming back gives the list back. */
  lemma RenameRoundTrip<T>(s: seq<T>, oldName: T, newName: T)
    requires oldName in s && newName !in s
    ensures Renamed(Renamed(s, oldName, newName), newName, oldName) == s
  {
  }
}
