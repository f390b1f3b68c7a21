/**
  The playlist cursor of src/file_manager.rs: the files of a directory, an order over them
  (`indexes`, a permutation of the file positions) and the current position in that order.
  Directory globbing is not modelled; the manager is built from the list of paths it finds.
*/
module FileManager {
  import opened Wrappers

  type Path = string

  /** `(0..n).collect()`: the identity order. */
  function Range(n: nat): (r: seq<nat>)
    ensures |r| == n && forall i :: 0 <= i < n ==> r[i] == i
  {
    seq(n, i requires 0 <= i => i as nat)
  }

  /** `xs` lists each of `0..n` exactly once. */
  ghost predicate IsPermutation(xs: seq<nat>, n: nat) {
    |xs| == n && multiset(xs) == multiset(Range(n))
  }

  /** Every entry of a permutation of `0..n` is below `n`. */
  lemma PermutationBounded(xs: seq<nat>, n: nat, i: nat)
    requires IsPermutation(xs, n) && i < n
    ensures xs[i] < n
  {
    assert xs[i] in multiset(Range(n));
    var j :| 0 <= j < n && Range(n)[j] == xs[i];
  }

  class FileManager {
    const filePaths: seq<Path>
    var indexes: seq<nat>
    var cur: nat
    const size: nat
    var isShuffled: bool

    ghost predicate Valid()
      reads this
    {
      && size == |filePaths| >= 1
      && IsPermutation(indexes, size)
      // implied by the permutation (lemma PermutationBounded), kept so that indexing needs no proof
      && (forall i :: 0 <= i < size ==> indexes[i] < size)
      && cur < size
    }

    /**
      `FileManager::new` (src/file_manager.rs:17-39) once the paths are found: no manager for an
      empty directory, otherwise the identity order, the first file current, not shuffled.
    */
    static method New(paths: seq<Path>) returns (fm: FileManager?)
      ensures fm == null <==> paths == []
      ensures fm != null ==> fresh(fm) && fm.Valid() && fm.filePaths == paths
                             && fm.indexes == Range(|paths|) && fm.cur == 0 && !fm.isShuffled
    {
      if |paths| == 0 {
        return null;
      }
      fm := new FileManager.Init(paths);
    }

    constructor Init(paths: seq<Path>)
      requires |paths| >= 1
      ensures Valid() && filePaths == paths && indexes == Range(|paths|) && cur == 0 && !isShuffled
    {
      filePaths := paths;
      size := |paths|;
      indexes := Range(|paths|);
      cur := 0;
      isShuffled := false;
    }

    /** `is_shuffled` (src/file_manager.rs:40-42). */
    function IsShuffled(): bool
      reads this
    {
      isShuffled
    }

    /** `current_index` (src/file_manager.rs:43-45): the file position of the current entry. */
    function CurrentIndex(): (i: nat)
      reads this
      requires Valid()
      ensures i < size
    {
      indexes[cur]
    }

    /** `get_current` (src/file_manager.rs:90-92): the path of the current entry. */
    function GetCurrent(): (p: Path)
      reads this
      requires Valid()
      ensures p == filePaths[CurrentIndex()]
    {
      filePaths[indexes[cur]]
    }

    /** `tracks_left` (src/file_manager.rs:105-107): the entries after the current one. */
    function TracksLeft(): (n: nat)
      reads this
      requires Valid()
      ensures n < size
    {
      size - 1 - cur
    }

    /**
      `next` (src/file_manager.rs:77-86): steps to the following entry and returns its path, or
      returns nothing at the last entry. It succeeds exactly when tracks are left, and lowers
      their number by one.
    */
    method Next() returns (r: Option<Path>)
      requires Valid()
      modifies `cur
      ensures Valid()
      ensures r.Some? <==> old(cur) < size - 1
      ensures r.Some? <==> old(TracksLeft()) != 0
      ensures r.Some? ==> cur == old(cur) + 1 && r.value == GetCurrent()
                          && TracksLeft() == old(TracksLeft()) - 1
      ensures r.None? ==> cur == old(cur)
    {
      r := None;
      if cur < size - 1 {
        cur := cur + 1;
        r := Some(GetCurrent());
      }
    }

    /**
      `prev` (src/file_manager.rs:93-101): steps to the preceding entry and returns its path, or
      returns nothing at the first entry.
    */
    method Prev() returns (r: Option<Path>)
      requires Valid()
      modifies `cur
      ensures Valid()
      ensures r.Some? <==> old(cur) > 0
      ensures r.Some? ==> cur == old(cur) - 1 && r.value == GetCurrent()
                          && TracksLeft() == old(TracksLeft()) + 1
      ensures r.None? ==> cur == old(cur)
    {
      r := None;
      if cur > 0 {
        cur := cur - 1;
        r := Some(GetCurrent());
      }
    }

    /**
      `set_index` (src/file_manager.rs:102-104). The source does not check the index; a later
      `get_current` would index out of range unless it is below `size`.
    */
    method SetIndex(newIndex: nat)
      requires Valid() && newIndex < size
      modifies `cur
      ensures Valid() && cur == newIndex
    {
      cur := newIndex;
    }

    /**
      `toggle_shuffle` (src/file_manager.rs:46-49): flips the shuffled flag and shuffles or
      restores the order accordingly; the current track stays the same.
    */
    method ToggleShuffle()
      requires Valid()
      modifies `isShuffled, `indexes, `cur
      ensures Valid() && isShuffled == !old(isShuffled)
      ensures GetCurrent() == old(GetCurrent())
      ensures isShuffled ==> cur == old(cur) && indexes[cur] == old(indexes[cur])
                             && multiset(indexes[..cur]) == multiset(old(indexes[..cur]))
                             && multiset(indexes[cur + 1..]) == multiset(old(indexes[cur + 1..]))
      ensures !isShuffled ==> cur == old(CurrentIndex()) && indexes == Range(size)
    {
      isShuffled := !isShuffled;
      MakeShuffled(isShuffled);
    }

    /**
      `make_shuffled` (src/file_manager.rs:50-65). Shuffling reorders the entries before the
      current one among themselves and those after it among themselves, by an arbitrary
      permutation (the random generator); the current entry keeps its place. Unshuffling restores
      the identity order and moves the cursor to the current file's position.
      Either way the current track is the same afterwards.
    */
    method MakeShuffled(shuffle: bool)
      requires Valid()
      modifies `isShuffled, `indexes, `cur
      ensures Valid() && isShuffled == shuffle
      ensures GetCurrent() == old(GetCurrent())
      ensures shuffle ==> cur == old(cur) && indexes[cur] == old(indexes[cur])
                          && multiset(indexes[..cur]) == multiset(old(indexes[..cur]))
                          && multiset(indexes[cur + 1..]) == multiset(old(indexes[cur + 1..]))
      ensures !shuffle ==> cur == old(CurrentIndex()) && indexes == Range(size)
    {
      if shuffle {
        ShuffleAroundCurrent();
      } else {
        Unshuffle();
      }
    }

    /** The shuffling branch of `make_shuffled` (lines 51-58). */
    method ShuffleAroundCurrent()
      requires Valid()
      modifies `isShuffled, `indexes
      ensures Valid() && isShuffled
      ensures indexes[cur] == old(indexes[cur])
      ensures multiset(indexes[..cur]) == multiset(old(indexes[..cur]))
      ensures multiset(indexes[cur + 1..]) == multiset(old(indexes[cur + 1..]))
    {
      isShuffled := true;
      var curIndex := cur;
      indexes := ShuffleSlice(indexes, 0, curIndex);
      assert indexes[..cur] == indexes[0..cur];
      assert indexes[cur + 1..] == old(indexes[cur + 1..]);
      if cur != size - 1 {
        ghost var shuffledFront := indexes;
        indexes := ShuffleSlice(indexes, curIndex + 1, size);
        assert indexes[..cur] == shuffledFront[..cur];
        assert indexes[cur + 1..] == indexes[cur + 1..size];
        assert shuffledFront[cur + 1..] == shuffledFront[cur + 1..size];
      }
      forall i | 0 <= i < size
        ensures indexes[i] < size
      {
        PermutationBounded(indexes, size, i);
      }
    }

    /** The restoring branch of `make_shuffled` (lines 59-64). */
    method Unshuffle()
      requires Valid()
      modifies `isShuffled, `indexes, `cur
      ensures Valid() && !isShuffled
      ensures cur == old(CurrentIndex()) && indexes == Range(size)
    {
      isShuffled := false;
      var index := indexes[cur];
      cur := index;
      indexes := Range(size);
    }

    /**
      `get_paths` (src/file_manager.rs:66-72): the paths of the entries `start..end` of the
      current order.
    */
    method GetPaths(start: nat, end: nat) returns (result: seq<Path>)
      requires Valid() && start <= end <= size
      ensures |result| == end - start
      ensures forall i :: 0 <= i < end - start ==> result[i] == filePaths[indexes[start + i]]
    {
      result := [];
      for k := start to end
        invariant |result| == k - start
        invariant forall i :: 0 <= i < k - start ==> result[i] == filePaths[indexes[start + i]]
      {
        result := result + [filePaths[indexes[k]]];
      }
    }
  }

  /**
    `slice.shuffle(&mut rng)` on the slice `lo..hi` of `xs`: the slice is replaced by a
    permutation of itself, chosen by the random generator (left open here), and nothing outside
    it changes.
  */
  method ShuffleSlice(xs: seq<nat>, lo: nat, hi: nat) returns (ys: seq<nat>)
    requires lo <= hi <= |xs|
    ensures |ys| == |xs|
    ensures forall i :: 0 <= i < lo ==> ys[i] == xs[i]
    ensures forall i :: hi <= i < |xs| ==> ys[i] == xs[i]
    ensures multiset(ys[lo..hi]) == multiset(xs[lo..hi])
    ensures multiset(ys) == multiset(xs)
  {
    var p :| multiset(p) == multiset(xs[lo..hi]);
    assert |p| == hi - lo by {
      assert |multiset(p)| == |multiset(xs[lo..hi])|;
    }
    ys := xs[..lo] + p + xs[hi..];
    assert xs == xs[..lo] + xs[lo..hi] + xs[hi..];
    assert ys[lo..hi] == p;
  }
}
