/** Disk compaction: a dense disk map of alternating file and free-space
    lengths is expanded, files are moved towards the front, and the result
    is scored by a positional checksum. `part_one` moves single blocks with
    two pointers; `part_two` moves whole files into free spans. */
module DiskFragmenter {
  import opened Common
  import opened Text

  /** A run on the disk: a file with its id and length, or free space of a
      length. Both numbers are `u32` in the program. */
  datatype Object = File(id: nat, size: nat) | FreeSpace(size: nat)

  datatype Fault = SubtractOverflow

  function Repeat(x: Object, n: nat): (r: seq<Object>)
    ensures |r| == n && forall k :: 0 <= k < n ==> r[k] == x
  {
    seq(n, _ => x)
  }

  lemma RepeatSnoc(x: Object, n: nat)
    ensures Repeat(x, n + 1) == Repeat(x, n) + [x]
  {
  }

  // ---------------------------------------------------------------------------
  // Checksum

  /** `checksum`: position times id for a file, nothing for free space. */
  function Checksum(o: Object, position: nat): (c: nat)
    ensures o.FreeSpace? ==> c == 0
    ensures o.File? ==> c == position * o.id
  {
    match o
    case File(id, _) => position * id
    case FreeSpace(_) => 0
  }

  /** The sum of the checksums of the cells at their indices. */
  function CheckSum(v: seq<Object>): nat
  {
    if v == [] then 0 else CheckSum(v[..|v| - 1]) + Checksum(v[|v| - 1], |v| - 1)
  }

  /** Free space at the end adds nothing to the checksum. */
  lemma {:induction false} CheckSumFreeTail(v: seq<Object>, n: nat)
    ensures CheckSum(v + Repeat(FreeSpace(1), n)) == CheckSum(v)
  {
    if n > 0 {
      CheckSumFreeTail(v, n - 1);
      RepeatSnoc(FreeSpace(1), n - 1);
      var w := v + Repeat(FreeSpace(1), n);
      assert w[..|w| - 1] == v + Repeat(FreeSpace(1), n - 1);
      assert w[|w| - 1] == FreeSpace(1);
      assert CheckSum(w) == CheckSum(w[..|w| - 1]) + Checksum(w[|w| - 1], |w| - 1);
    } else {
      assert v + Repeat(FreeSpace(1), 0) == v;
    }
  }

  // ---------------------------------------------------------------------------
  // Parsing

  /** The number of files among the first characters: digits at even
      character indices. */
  function FileIndex(s: string): nat
  {
    if s == [] then 0
    else FileIndex(s[..|s| - 1]) + (if IsDigit(s[|s| - 1]) && (|s| - 1) % 2 == 0 then 1 else 0)
  }

  /** What the character c at index idx adds: nothing unless it is a digit;
      a file with the next id at an even index, free space at an odd one;
      with `pack` as that many unit cells, otherwise as one run. */
  function Piece(c: char, idx: nat, id: nat, pack: bool): seq<Object>
  {
    if !IsDigit(c) then []
    else
      var num := DigitValue(c);
      if idx % 2 == 0 then (if pack then Repeat(File(id, 1), num) else [File(id, num)])
      else (if pack then Repeat(FreeSpace(1), num) else [FreeSpace(num)])
  }

  /** The disk described by a whole input. */
  function Parse(s: string, pack: bool): seq<Object>
  {
    if s == [] then []
    else Parse(s[..|s| - 1], pack) + Piece(s[|s| - 1], |s| - 1, FileIndex(s[..|s| - 1]), pack)
  }

  /** `parse_into_vec`: one pass over the characters with a running file
      index; characters that are not digits are skipped but still count for
      the parity of the index. */
  method ParseIntoVec(input: string, packAsOne: bool) returns (v: seq<Object>)
    ensures v == Parse(input, packAsOne)
  {
    var fileIndex := 0;
    v := [];
    for idx := 0 to |input|
      invariant v == Parse(input[..idx], packAsOne)
      invariant fileIndex == FileIndex(input[..idx])
    {
      assert input[..idx + 1][..idx] == input[..idx];
      var c := input[idx];
      ghost var before := v;
      if IsDigit(c) {
        var num := DigitValue(c);
        if idx % 2 == 0 {
          if packAsOne {
            for k := 0 to num
              invariant v == before + Repeat(File(fileIndex, 1), k)
            {
              RepeatSnoc(File(fileIndex, 1), k);
              v := v + [File(fileIndex, 1)];
            }
          } else {
            v := v + [File(fileIndex, num)];
          }
          fileIndex := fileIndex + 1;
        } else if packAsOne {
          for k := 0 to num
            invariant v == before + Repeat(FreeSpace(1), k)
          {
            RepeatSnoc(FreeSpace(1), k);
            v := v + [FreeSpace(1)];
          }
        } else {
          v := v + [FreeSpace(num)];
        }
      }
    }
    assert input[..|input|] == input;
  }

  /** The ids of the files, in order. */
  function Ids(v: seq<Object>): seq<nat>
  {
    if v == [] then []
    else Ids(v[..|v| - 1]) + (if v[|v| - 1].File? then [v[|v| - 1].id] else [])
  }

  lemma {:induction false} IdsAppend(a: seq<Object>, b: seq<Object>)
    ensures Ids(a + b) == Ids(a) + Ids(b)
  {
    if b != [] {
      assert (a + b)[..|a + b| - 1] == a + b[..|b| - 1];
      IdsAppend(a, b[..|b| - 1]);
    } else {
      assert a + b == a;
    }
  }

  function Iota(n: nat): (r: seq<nat>)
    ensures |r| == n && forall k :: 0 <= k < n ==> r[k] == k
  {
    seq(n, k => k)
  }

  /** Files get the ids 0, 1, 2, ... in the order they appear. */
  lemma {:induction false} ParseIds(s: string)
    ensures Ids(Parse(s, false)) == Iota(FileIndex(s))
  {
    if s != [] {
      var s' := s[..|s| - 1];
      ParseIds(s');
      IdsAppend(Parse(s', false), Piece(s[|s| - 1], |s| - 1, FileIndex(s'), false));
      var p := Piece(s[|s| - 1], |s| - 1, FileIndex(s'), false);
      if p != [] {
        assert p[..0] == [];
      }
      assert Iota(FileIndex(s') + 1) == Iota(FileIndex(s')) + [FileIndex(s')];
    }
  }

  /** Every cell of a packed disk has length 1. */
  predicate UnitCells(v: seq<Object>)
  {
    forall k :: 0 <= k < |v| ==> v[k].size == 1
  }

  lemma {:induction false} ParseUnits(s: string)
    ensures UnitCells(Parse(s, true))
  {
    if s != [] {
      ParseUnits(s[..|s| - 1]);
    }
  }

  // ---------------------------------------------------------------------------
  // Unit cells

  /** A run as unit cells of its kind (and id). */
  function Expand(o: Object): seq<Object>
  {
    match o
    case File(id, n) => Repeat(File(id, 1), n)
    case FreeSpace(n) => Repeat(FreeSpace(1), n)
  }

  /** Every run replaced by its unit cells, in order. */
  function Ones(v: seq<Object>): seq<Object>
  {
    if v == [] then [] else Ones(v[..|v| - 1]) + Expand(v[|v| - 1])
  }

  lemma {:induction false} OnesAppend(a: seq<Object>, b: seq<Object>)
    ensures Ones(a + b) == Ones(a) + Ones(b)
  {
    if b != [] {
      assert (a + b)[..|a + b| - 1] == a + b[..|b| - 1];
      OnesAppend(a, b[..|b| - 1]);
    } else {
      assert a + b == a;
    }
  }

  /** Unit cells keep their run's kind and id, and the disk keeps its
      length. */
  lemma OnesSingle(o: Object)
    ensures Ones([o]) == Expand(o)
    ensures |Ones([o])| == o.size
  {
    assert [o][..0] == [];
  }

  /** The length of the disk in unit cells. */
  function TotalSize(v: seq<Object>): nat
  {
    if v == [] then 0 else TotalSize(v[..|v| - 1]) + v[|v| - 1].size
  }

  lemma {:induction false} OnesLength(v: seq<Object>)
    ensures |Ones(v)| == TotalSize(v)
    ensures UnitCells(Ones(v))
  {
    if v != [] {
      OnesLength(v[..|v| - 1]);
    }
  }

  /** Packing while parsing is the same as expanding the unpacked disk. */
  lemma {:induction false} ParseOnes(s: string)
    ensures Parse(s, true) == Ones(Parse(s, false))
  {
    if s != [] {
      var s' := s[..|s| - 1];
      var c, idx, id := s[|s| - 1], |s| - 1, FileIndex(s[..|s| - 1]);
      ParseOnes(s');
      OnesAppend(Parse(s', false), Piece(c, idx, id, false));
      if IsDigit(c) {
        OnesSingle(Piece(c, idx, id, false)[0]);
      } else {
        assert Ones([]) == [];
      }
    }
  }

  /** `convert_to_ones`: a push loop per run. */
  method ConvertToOnes(input: seq<Object>) returns (v: seq<Object>)
    ensures v == Ones(input)
  {
    v := [];
    for i := 0 to |input|
      invariant v == Ones(input[..i])
    {
      assert input[..i + 1][..i] == input[..i];
      ghost var before := v;
      match input[i] {
        case File(id, num) =>
          for k := 0 to num
            invariant v == before + Repeat(File(id, 1), k)
          {
            RepeatSnoc(File(id, 1), k);
            v := v + [File(id, 1)];
          }
        case FreeSpace(num) =>
          for k := 0 to num
            invariant v == before + Repeat(FreeSpace(1), k)
          {
            RepeatSnoc(FreeSpace(1), k);
            v := v + [FreeSpace(1)];
          }
      }
    }
    assert input[..|input|] == input;
  }

  // ---------------------------------------------------------------------------
  // part_one: the two-pointer compaction

  /** The number of file cells. */
  function FileCount(s: seq<Object>): (c: nat)
    ensures c <= |s|
  {
    if s == [] then 0 else FileCount(s[..|s| - 1]) + (if s[|s| - 1].File? then 1 else 0)
  }

  function FreeCount(s: seq<Object>): int
  {
    |s| - FileCount(s)
  }

  lemma {:induction false} FileCountAppend(a: seq<Object>, b: seq<Object>)
    ensures FileCount(a + b) == FileCount(a) + FileCount(b)
  {
    if b != [] {
      assert (a + b)[..|a + b| - 1] == a + b[..|b| - 1];
      FileCountAppend(a, b[..|b| - 1]);
    } else {
      assert a + b == a;
    }
  }

  /** The file cells read from the right end. */
  function FromRight(s: seq<Object>): (r: seq<Object>)
    ensures |r| == FileCount(s)
  {
    if s == [] then []
    else (if s[|s| - 1].File? then [s[|s| - 1]] else []) + FromRight(s[..|s| - 1])
  }

  lemma {:induction false} FromRightAppend(a: seq<Object>, b: seq<Object>)
    ensures FromRight(a + b) == FromRight(b) + FromRight(a)
  {
    if b != [] {
      assert (a + b)[..|a + b| - 1] == a + b[..|b| - 1];
      FromRightAppend(a, b[..|b| - 1]);
    } else {
      assert a + b == a;
    }
  }

  /** The file at j is the one read after the files to its right. */
  lemma FromRightAt(s: seq<Object>, j: nat)
    requires j < |s| && s[j].File?
    ensures FileCount(s[j + 1..]) < |FromRight(s)|
    ensures FromRight(s)[FileCount(s[j + 1..])] == s[j]
  {
    assert s == s[..j] + [s[j]] + s[j + 1..];
    FromRightAppend(s[..j] + [s[j]], s[j + 1..]);
    FromRightAppend(s[..j], [s[j]]);
    assert FromRight([s[j]]) == [s[j]] by {
      assert [s[j]][..0] == [];
    }
  }

  /** Where `part_one` leaves each cell k among the first FileCount(s): a file
      stays; the m-th free cell from the left receives the m-th file from the
      right. */
  function Expected(s: seq<Object>, k: nat): Object
    requires k < |s|
  {
    if s[k].File? then s[k]
    else
      var m := FreeCount(s[..k]);
      if 0 <= m < |FromRight(s)| then FromRight(s)[m] else s[k]
  }

  /** The disk after `part_one`'s loop: the rearranged files first, then unit
      free cells. */
  function Compacted(s: seq<Object>): (r: seq<Object>)
    ensures |r| == |s|
  {
    seq(|s|, k requires 0 <= k < |s| => if k < FileCount(s) then Expected(s, k) else FreeSpace(1))
  }

  /** In the compacted disk every file cell comes before every free cell. */
  lemma CompactedFilesFirst(s: seq<Object>)
    ensures forall k :: 0 <= k < FileCount(s) ==> Compacted(s)[k].File?
    ensures forall k :: FileCount(s) <= k < |s| ==> Compacted(s)[k].FreeSpace?
  {
    forall k | 0 <= k < FileCount(s)
      ensures Compacted(s)[k].File?
    {
      if s[k].FreeSpace? {
        assert s == s[..k] + s[k..];
        FileCountAppend(s[..k], s[k..]);
        var m := FreeCount(s[..k]);
        assert s[k..] == [s[k]] + s[k + 1..];
        FileCountAppend([s[k]], s[k + 1..]);
        assert FileCount([s[k]]) == 0 by {
          assert [s[k]][..0] == [];
        }
        assert 0 <= m < |FromRight(s)|;
        FromRightFiles(s, m);
      }
    }
  }

  /** Only the first FileCount(s) cells of the compacted disk, the files,
      contribute to its checksum. */
  lemma CompactedChecksum(s: seq<Object>)
    ensures CheckSum(Compacted(s)) == CheckSum(Compacted(s)[..FileCount(s)])
  {
    var r, n := Compacted(s), FileCount(s);
    var tail := Repeat(FreeSpace(1), |s| - n);
    forall k | 0 <= k < |r|
      ensures r[k] == (r[..n] + tail)[k]
    {
      if k >= n {
        assert r[k] == FreeSpace(1);
      }
    }
    assert r == r[..n] + tail;
    CheckSumFreeTail(r[..n], |s| - n);
  }

  lemma {:induction false} FromRightFiles(s: seq<Object>, m: nat)
    requires m < |FromRight(s)|
    ensures FromRight(s)[m].File?
  {
    var head := if s[|s| - 1].File? then [s[|s| - 1]] else [];
    if m >= |head| {
      FromRightFiles(s[..|s| - 1], m - |head|);
    }
  }

  /** The number of files among the cells lo until hi. */
  function FilesIn(s: seq<Object>, lo: nat, hi: nat): (c: nat)
    requires lo <= hi <= |s|
    ensures c <= hi - lo
    decreases hi - lo
  {
    if lo == hi then 0 else FilesIn(s, lo, hi - 1) + (if s[hi - 1].File? then 1 else 0)
  }

  lemma {:induction false} FilesInSlice(s: seq<Object>, lo: nat, hi: nat)
    requires lo <= hi <= |s|
    ensures FilesIn(s, lo, hi) == FileCount(s[lo..hi])
    decreases hi - lo
  {
    if lo < hi {
      FilesInSlice(s, lo, hi - 1);
      assert s[lo..hi][..hi - lo - 1] == s[lo..hi - 1];
    } else {
      assert s[lo..hi] == [];
    }
  }

  lemma {:induction false} FilesInSplit(s: seq<Object>, lo: nat, mid: nat, hi: nat)
    requires lo <= mid <= hi <= |s|
    ensures FilesIn(s, lo, hi) == FilesIn(s, lo, mid) + FilesIn(s, mid, hi)
    decreases hi - mid
  {
    if mid < hi {
      FilesInSplit(s, lo, mid, hi - 1);
    }
  }

  lemma {:induction false} FilesInNone(s: seq<Object>, lo: nat, hi: nat)
    requires lo <= hi <= |s| && FilesIn(s, lo, hi) == 0
    ensures forall k :: lo <= k < hi ==> s[k].FreeSpace?
    decreases hi - lo
  {
    if lo < hi {
      FilesInNone(s, lo, hi - 1);
    }
  }

  /** c[k] is the number of files among the first k cells, for k <= n. */
  ghost predicate Tally(s: seq<Object>, c: seq<nat>, n: nat)
    requires n <= |s| && |c| == |s| + 1
  {
    if n == 0 then c[0] == 0 else c[n] == c[n - 1] + (if s[n - 1].File? then 1 else 0) && Tally(s, c, n - 1)
  }

  lemma {:induction false} TallyStep(s: seq<Object>, c: seq<nat>, n: nat, k: nat)
    requires k < n <= |s| && |c| == |s| + 1 && Tally(s, c, n)
    ensures c[k + 1] == c[k] + (if s[k].File? then 1 else 0)
  {
    if k + 1 < n {
      TallyStep(s, c, n - 1, k);
    }
  }

  lemma {:induction false} TallyIs(s: seq<Object>, c: seq<nat>, n: nat, k: nat)
    requires k <= n <= |s| && |c| == |s| + 1 && Tally(s, c, n)
    ensures c[k] == FilesIn(s, 0, k)
  {
    if k < n {
      TallyIs(s, c, n - 1, k);
    } else if k > 0 {
      TallyIs(s, c, n - 1, k - 1);
    }
  }

  /** The tally of every prefix. */
  lemma TallyCells(s: seq<Object>) returns (c: seq<nat>)
    ensures |c| == |s| + 1 && c[0] == 0 && Tally(s, c, |s|)
  {
    c := seq(|s| + 1, k requires 0 <= k <= |s| => FilesIn(s, 0, k));
    TallyAll(s, c, |s|);
  }

  lemma {:induction false} TallyAll(s: seq<Object>, c: seq<nat>, n: nat)
    requires n <= |s| && |c| == |s| + 1 && forall k :: 0 <= k <= n ==> c[k] == FilesIn(s, 0, k)
    ensures Tally(s, c, n)
  {
    if n > 0 {
      TallyAll(s, c, n - 1);
    }
  }

  /** The state of `part_one`'s two-pointer loop over the packed disk s: the
      cells before i hold their final contents e, those from i to j are
      untouched, those after j are unit free cells, the free cells passed on
      the left are as many as the files passed on the right (c tallies the
      files), and nothing was lost. */
  ghost predicate CompactInv(s: seq<Object>, e: seq<Object>, c: seq<nat>, t: seq<Object>, i: nat, j: nat)
  {
    |t| == |s| && |e| == |s| && |c| == |s| + 1 && i <= j + 1 <= |s|
    && (forall k :: 0 <= k < i ==> t[k] == e[k] && t[k].File?)
    && (forall k :: i <= k <= j ==> t[k] == s[k])
    && (forall k :: j < k < |t| ==> t[k] == FreeSpace(1))
    && i + c[j + 1] == c[|s|] + c[i]
    && multiset(t) == multiset(s)
  }

  /** The facts about s that the loop relies on. */
  ghost predicate CompactFacts(s: seq<Object>, e: seq<Object>, c: seq<nat>)
  {
    UnitCells(s) && |e| == |s| && Matches(s, e, |s|) && |c| == |s| + 1 && Tally(s, c, |s|)
  }

  /** A file at i stays where it is. */
  lemma CompactSkipFile(s: seq<Object>, e: seq<Object>, c: seq<nat>, t: seq<Object>, i: nat, j: nat)
    requires CompactFacts(s, e, c) && CompactInv(s, e, c, t, i, j) && i <= j && t[i].File?
    ensures CompactInv(s, e, c, t, i + 1, j)
  {
    MatchesAt(s, e, |s|, i);
    TallyStep(s, c, |s|, i);
  }

  /** A free cell at j > 0 is passed over. */
  lemma CompactSkipFree(s: seq<Object>, e: seq<Object>, c: seq<nat>, t: seq<Object>, i: nat, j: nat)
    requires CompactFacts(s, e, c) && CompactInv(s, e, c, t, i, j) && i <= j && 0 < j && t[j].FreeSpace?
    ensures CompactInv(s, e, c, t, i, j - 1)
  {
    TallyStep(s, c, |s|, j);
  }

  /** A free cell at i and a file at j are swapped; the file is the one that
      belongs in cell i. */
  lemma CompactSwap(s: seq<Object>, e: seq<Object>, c: seq<nat>, t: seq<Object>, i: nat, j: nat)
    requires CompactFacts(s, e, c) && CompactInv(s, e, c, t, i, j) && i <= j && t[i].FreeSpace? && t[j].File?
    ensures 0 < j && CompactInv(s, e, c, t[i := t[j]][j := t[i]], i + 1, j - 1)
  {
    var u := t[i := t[j]][j := t[i]];
    TallyStep(s, c, |s|, i);
    TallyStep(s, c, |s|, j);
    SwapTakes(s, e, c, i, j);
    assert u[j] == FreeSpace(1);
    SwapPermutes(t, i, j);
  }

  lemma SwapPermutes(t: seq<Object>, i: nat, j: nat)
    requires i < j < |t|
    ensures multiset(t[i := t[j]][j := t[i]]) == multiset(t)
  {
    var u1 := t[i := t[j]];
    assert multiset(u1) == multiset(t)[t[i] := multiset(t)[t[i]] - 1][t[j] := multiset(t)[t[j]] + (if t[i] == t[j] then 0 else 1)];
  }

  lemma SwapTakes(s: seq<Object>, e: seq<Object>, c: seq<nat>, i: nat, j: nat)
    requires CompactFacts(s, e, c)
    requires i < j < |s| && s[i].FreeSpace? && s[j].File?
    requires i + c[j + 1] == c[|s|] + c[i]
    ensures e[i] == s[j]
  {
    MatchesAt(s, e, |s|, i);
    TallyPrefix(s, c, i);
    TallySuffix(s, c, j + 1);
    var m := FreeCount(s[..i]);
    assert m == FileCount(s[j + 1..]);
    FromRightAt(s, j);
    assert Expected(s, i) == FromRight(s)[m];
  }

  /** The tally counts the files of every prefix ... */
  lemma TallyPrefix(s: seq<Object>, c: seq<nat>, k: nat)
    requires k <= |s| && |c| == |s| + 1 && Tally(s, c, |s|)
    ensures FileCount(s[..k]) == c[k]
  {
    TallyIs(s, c, |s|, k);
    FilesInSlice(s, 0, k);
    assert s[0..k] == s[..k];
  }

  /** ... and of every suffix. */
  lemma TallySuffix(s: seq<Object>, c: seq<nat>, k: nat)
    requires k <= |s| && |c| == |s| + 1 && Tally(s, c, |s|)
    ensures FileCount(s[k..]) + c[k] == c[|s|]
  {
    TallyIs(s, c, |s|, k);
    TallyIs(s, c, |s|, |s|);
    FilesInSplit(s, 0, k, |s|);
    FilesInSlice(s, k, |s|);
    assert s[k..|s|] == s[k..];
  }

  /** Free cells at i and at j == 0: the disk has no file and is untouched. */
  lemma CompactNoFiles(s: seq<Object>, e: seq<Object>, c: seq<nat>, t: seq<Object>, i: nat)
    requires CompactFacts(s, e, c) && CompactInv(s, e, c, t, i, 0) && i == 0 && t[0].FreeSpace?
    ensures FileCount(s) == 0 && t == s
  {
    TallyStep(s, c, |s|, 0);
    TallyIs(s, c, |s|, |s|);
    FilesInSlice(s, 0, |s|);
    FilesInNone(s, 0, |s|);
    assert s[0..|s|] == s;
  }

  /** When the pointers have crossed the disk is compacted. */
  lemma CompactDone(s: seq<Object>, e: seq<Object>, c: seq<nat>, t: seq<Object>, i: nat, j: nat)
    requires CompactFacts(s, e, c) && CompactInv(s, e, c, t, i, j) && i == j + 1
    ensures FileCount(s) > 0 && t == Compacted(s)
  {
    TallyIs(s, c, |s|, |s|);
    FilesInSlice(s, 0, |s|);
    assert s[0..|s|] == s;
    forall k | 0 <= k < i
      ensures t[k] == Compacted(s)[k]
    {
      MatchesAt(s, e, |s|, k);
    }
  }

  /** e holds the expected contents of the first n cells. */
  ghost predicate Matches(s: seq<Object>, e: seq<Object>, n: nat)
    requires n <= |s| == |e|
  {
    n == 0 || (e[n - 1] == Expected(s, n - 1) && Matches(s, e, n - 1))
  }

  lemma {:induction false} MatchesAt(s: seq<Object>, e: seq<Object>, n: nat, k: nat)
    requires k < n <= |s| == |e| && Matches(s, e, n)
    ensures e[k] == Expected(s, k)
  {
    if k < n - 1 {
      MatchesAt(s, e, n - 1, k);
    }
  }

  /** The expected contents of every cell. */
  lemma ExpectedCells(s: seq<Object>) returns (e: seq<Object>)
    ensures |e| == |s| && Matches(s, e, |s|)
  {
    e := seq(|s|, k requires 0 <= k < |s| => Expected(s, k));
    MatchesAll(s, e, |s|);
  }

  lemma {:induction false} MatchesAll(s: seq<Object>, e: seq<Object>, n: nat)
    requires n <= |s| == |e| && forall k :: 0 <= k < n ==> e[k] == Expected(s, k)
    ensures Matches(s, e, n)
  {
    if n > 0 {
      MatchesAll(s, e, n - 1);
    }
  }

  /** `part_one`'s two-pointer loop on a disk t from the pointers i and j:
      i skips files, j skips free cells, and a free cell at i is swapped with
      the file at j. None where the program panics: `j -= 1` at 0. */
  function CompactLoop(t: seq<Object>, i: nat, j: nat): Option<seq<Object>>
    requires i <= j + 1 <= |t|
    decreases j + 1 - i
  {
    if i > j then Some(t)
    else if t[i].File? then CompactLoop(t, i + 1, j)
    else if t[j].FreeSpace? then (if j == 0 then None else CompactLoop(t, i, j - 1))
    else CompactLoop(t[i := t[j]][j := t[i]], i + 1, j - 1)
  }

  /** From any state of the loop over the packed disk s, the loop panics
      exactly when s has no file, and otherwise ends with s compacted. */
  lemma {:induction false} CompactLoopFrom(s: seq<Object>, e: seq<Object>, c: seq<nat>, t: seq<Object>, i: nat, j: nat)
    requires CompactFacts(s, e, c) && CompactInv(s, e, c, t, i, j)
    ensures CompactLoop(t, i, j) == if FileCount(s) == 0 then None else Some(Compacted(s))
    ensures FileCount(s) > 0 ==> multiset(Compacted(s)) == multiset(s)
    decreases j + 1 - i
  {
    if i > j {
      CompactDone(s, e, c, t, i, j);
    } else if j == 0 && t[i].FreeSpace? && t[j].FreeSpace? {
      CompactNoFiles(s, e, c, t, i);
    } else {
      var t', i', j' := CompactStep(s, e, c, t, i, j);
      CompactLoopFrom(s, e, c, t', i', j');
    }
  }

  /** One pass of the loop that neither ends it nor panics keeps the loop's
      state and brings the pointers closer. */
  lemma CompactStep(s: seq<Object>, e: seq<Object>, c: seq<nat>, t: seq<Object>, i: nat, j: nat)
      returns (t': seq<Object>, i': nat, j': nat)
    requires CompactFacts(s, e, c) && CompactInv(s, e, c, t, i, j) && i <= j
    requires !(j == 0 && t[i].FreeSpace? && t[j].FreeSpace?)
    ensures CompactInv(s, e, c, t', i', j') && j' + 1 - i' < j + 1 - i
    ensures CompactLoop(t, i, j) == CompactLoop(t', i', j')
  {
    if t[i].File? {
      CompactSkipFile(s, e, c, t, i, j);
      t', i', j' := t, i + 1, j;
    } else if t[j].FreeSpace? {
      CompactSkipFree(s, e, c, t, i, j);
      t', i', j' := t, i, j - 1;
    } else {
      CompactSwap(s, e, c, t, i, j);
      t', i', j' := t[i := t[j]][j := t[i]], i + 1, j - 1;
    }
  }

  /** `part_one` on a packed disk of unit cells panics exactly when the disk
      has no file (`vec.len() - 1` on an empty disk, `j -= 1` at 0 on one
      with only free space); otherwise it leaves the disk compacted, a
      permutation of the original. */
  lemma CompactLoopResult(s: seq<Object>)
    requires UnitCells(s) && |s| > 0
    ensures CompactLoop(s, 0, |s| - 1) == if FileCount(s) == 0 then None else Some(Compacted(s))
  {
    var e, c := CompactStart(s);
    CompactLoopFrom(s, e, c, s, 0, |s| - 1);
  }

  /** Compaction only rearranges the cells. */
  lemma CompactedPermutes(s: seq<Object>)
    requires UnitCells(s) && FileCount(s) > 0
    ensures multiset(Compacted(s)) == multiset(s)
  {
    assert |s| > 0;
    var e, c := CompactStart(s);
    CompactLoopFrom(s, e, c, s, 0, |s| - 1);
  }

  /** The expected contents and the tally of the packed disk s, in the
      loop's initial state. */
  lemma CompactStart(s: seq<Object>) returns (e: seq<Object>, c: seq<nat>)
    requires UnitCells(s) && |s| > 0
    ensures CompactFacts(s, e, c) && CompactInv(s, e, c, s, 0, |s| - 1)
  {
    e := ExpectedCells(s);
    c := TallyCells(s);
  }





  lemma FileAt(s: seq<Object>, j: nat)
    requires j < |s| && s[j].File?
    ensures FileCount(s) > 0
  {
    assert s == s[..j + 1] + s[j + 1..];
    FileCountAppend(s[..j + 1], s[j + 1..]);
    assert s[..j + 1][..j] == s[..j];
  }

  /** The two-pointer loop of `part_one` on the packed disk, in place. It
      returns false where the program panics: `vec.len() - 1` on an empty
      disk, and `j -= 1` at 0, which happens exactly when there is no file. */
  method Compact(a: array<Object>) returns (ok: bool)
    requires UnitCells(a[..])
    modifies a
    ensures ok <==> FileCount(old(a[..])) > 0
    ensures !ok ==> a[..] == old(a[..])
    ensures ok ==> a[..] == Compacted(old(a[..]))
    ensures ok ==> multiset(a[..]) == multiset(old(a[..]))
  {
    ghost var s := a[..];
    if a.Length == 0 {
      return false;
    }
    CompactLoopResult(s);
    if FileCount(s) > 0 {
      CompactedPermutes(s);
    }
    var i: nat, j: nat := 0, a.Length - 1;
    while i <= j
      invariant i <= j + 1 <= a.Length
      invariant CompactLoop(a[..], i, j) == CompactLoop(s, 0, |s| - 1)
      invariant FileCount(s) == 0 ==> a[..] == s
      decreases j + 1 - i
    {
      if a[i].File? {
        i := i + 1;
        continue;
      }
      if a[j].FreeSpace? {
        if j == 0 {
          return false;
        }
        j := j - 1;
        continue;
      }
      ghost var t := a[..];
      FileAt(t, j);
      a[i], a[j] := a[j], a[i];
      assert a[..] == t[i := t[j]][j := t[i]];
      i := i + 1;
      j := j - 1;
    }
    return true;
  }

  /** `part_one`: parse into unit cells, compact, and sum the checksums. */
  method PartOne(input: string) returns (r: Outcome<nat, Fault>)
    ensures var v := Parse(input, true);
      r == if FileCount(v) == 0 then Panic(SubtractOverflow) else Ok(CheckSum(Compacted(v)))
  {
    var v := ParseIntoVec(input, true);
    ParseUnits(input);
    var a := new Object[|v|](k requires 0 <= k < |v| => v[k]);
    assert a[..] == v;
    var ok := Compact(a);
    if !ok {
      return Panic(SubtractOverflow);
    }
    r := Ok(CheckSum(a[..]));
  }

  // ---------------------------------------------------------------------------
  // part_two: moving whole files

  /** A move of the file at j into the free span at i. */
  datatype Move = Move(i: nat, j: nat)

  /** A file may move into a free span to its left that is at least as long. */
  predicate ValidMove(v: seq<Object>, m: Move)
  {
    m.i < m.j < |v| && v[m.i].FreeSpace? && v[m.j].File? && v[m.j].size <= v[m.i].size
  }

  function Insert(v: seq<Object>, k: nat, x: Object): (r: seq<Object>)
    requires k <= |v|
    ensures |r| == |v| + 1 && r[k] == x
    ensures forall n :: 0 <= n < k ==> r[n] == v[n]
    ensures forall n :: k < n < |r| ==> r[n] == v[n - 1]
  {
    v[..k] + [x] + v[k..]
  }

  /** One move as `try_swapping` makes it: the file and the span are swapped;
      a longer span is split, its rest `FreeSpace(diff)` right after the file,
      and the vacated slot becomes free space of the file's length. */
  function MoveAt(v: seq<Object>, m: Move): (w: seq<Object>)
    requires ValidMove(v, m)
    ensures |w| == if v[m.i].size == v[m.j].size then |v| else |v| + 1
    ensures w[m.i] == v[m.j]
    ensures v[m.i].size == v[m.j].size ==> |w| == |v| && w[m.j] == v[m.i]
    ensures v[m.i].size > v[m.j].size ==>
      |w| == |v| + 1 && w[m.i + 1] == FreeSpace(v[m.i].size - v[m.j].size) && w[m.j + 1] == FreeSpace(v[m.j].size)
  {
    var ni, nj := v[m.i].size, v[m.j].size;
    var swapped := v[m.i := v[m.j]][m.j := v[m.i]];
    if ni == nj then swapped
    else Insert(swapped[m.j := FreeSpace(nj)], m.i + 1, FreeSpace(ni - nj))
  }

  /** The disk after a sequence of moves, None if one of them is not valid. */
  function Run(v: seq<Object>, ms: seq<Move>): Option<seq<Object>>
  {
    if ms == [] then Some(v)
    else
      match Run(v, ms[..|ms| - 1])
      case None => None
      case Some(w) => if ValidMove(w, ms[|ms| - 1]) then Some(MoveAt(w, ms[|ms| - 1])) else None
  }

  lemma RunSnoc(v: seq<Object>, ms: seq<Move>, m: Move)
    requires Run(v, ms).Some? && ValidMove(Run(v, ms).value, m)
    ensures Run(v, ms + [m]) == Some(MoveAt(Run(v, ms).value, m))
  {
    assert (ms + [m])[..|ms|] == ms;
  }

  lemma {:induction false} RunAppend(v: seq<Object>, a: seq<Move>, b: seq<Move>)
    requires Run(v, a).Some?
    ensures Run(v, a + b) == Run(Run(v, a).value, b)
  {
    if b == [] {
      assert a + b == a;
    } else {
      assert (a + b)[..|a + b| - 1] == a + b[..|b| - 1];
      RunAppend(v, a, b[..|b| - 1]);
    }
  }

  /** The disk w can be reached from v by valid moves. */
  ghost predicate Reaches(v: seq<Object>, w: seq<Object>)
  {
    exists ms: seq<Move> :: Run(v, ms) == Some(w)
  }

  /** No file can move any more. */
  predicate Stuck(v: seq<Object>)
  {
    forall i, j :: 0 <= i < j < |v| && v[i].FreeSpace? && v[j].File? ==> v[j].size > v[i].size
  }

  /** No file outside `moved` can move. */
  predicate StuckOutside(v: seq<Object>, moved: set<Object>)
  {
    forall i, j :: 0 <= i < j < |v| && v[i].FreeSpace? && v[j].File? && v[j] !in moved ==> v[j].size > v[i].size
  }

  predicate AllFree(moved: set<Object>)
  {
    forall o :: o in moved ==> o.FreeSpace?
  }

  /** The set `moved_objects` only ever receives the value read back from the
      vacated slot after the swap, a free span; so it holds no file and the
      test that skips files in it never skips one. */
  lemma NeverSkips(v: seq<Object>, moved: set<Object>)
    requires AllFree(moved)
    ensures StuckOutside(v, moved) <==> Stuck(v)
    ensures forall j :: 0 <= j < |v| && v[j].File? ==> v[j] !in moved
  {
  }

  lemma {:induction false} TotalSizeAppend(a: seq<Object>, b: seq<Object>)
    ensures TotalSize(a + b) == TotalSize(a) + TotalSize(b)
  {
    if b != [] {
      assert (a + b)[..|a + b| - 1] == a + b[..|b| - 1];
      TotalSizeAppend(a, b[..|b| - 1]);
    } else {
      assert a + b == a;
    }
  }

  lemma TotalSizeUpdate(v: seq<Object>, k: nat, x: Object)
    requires k < |v|
    ensures TotalSize(v[k := x]) + v[k].size == TotalSize(v) + x.size
  {
    assert v == v[..k] + [v[k]] + v[k + 1..];
    assert v[k := x] == v[..k] + [x] + v[k + 1..];
    TotalSizeAppend(v[..k] + [v[k]], v[k + 1..]);
    TotalSizeAppend(v[..k], [v[k]]);
    TotalSizeAppend(v[..k] + [x], v[k + 1..]);
    TotalSizeAppend(v[..k], [x]);
    assert [x][..0] == [] && [v[k]][..0] == [];
  }

  /** A move keeps the length of the disk in unit cells. */
  lemma MoveKeepsSize(v: seq<Object>, m: Move)
    requires ValidMove(v, m)
    ensures TotalSize(MoveAt(v, m)) == TotalSize(v)
  {
    var ni, nj := v[m.i].size, v[m.j].size;
    var s1 := v[m.i := v[m.j]];
    var s2 := s1[m.j := v[m.i]];
    TotalSizeUpdate(v, m.i, v[m.j]);
    TotalSizeUpdate(s1, m.j, v[m.i]);
    if ni == nj {
      assert MoveAt(v, m) == s2;
    } else {
      var s3 := s2[m.j := FreeSpace(nj)];
      assert MoveAt(v, m) == Insert(s3, m.i + 1, FreeSpace(ni - nj));
      TotalSizeUpdate(s2, m.j, FreeSpace(nj));
      TotalSizeInsert(s3, m.i + 1, FreeSpace(ni - nj));
    }
  }

  lemma {:induction false} TotalSizeInsert(v: seq<Object>, k: nat, x: Object)
    requires k <= |v|
    ensures TotalSize(Insert(v, k, x)) == TotalSize(v) + x.size
  {
    var w := Insert(v, k, x);
    if k == |v| {
      assert w[..|v|] == v;
    } else {
      var n := |v| - 1;
      var u := Insert(v[..n], k, x);
      assert w[..|w| - 1] == u;
      TotalSizeInsert(v[..n], k, x);
    }
  }

  lemma {:induction false} RunKeepsSize(v: seq<Object>, ms: seq<Move>)
    requires Run(v, ms).Some?
    ensures TotalSize(Run(v, ms).value) == TotalSize(v)
  {
    if ms != [] {
      RunKeepsSize(v, ms[..|ms| - 1]);
      MoveKeepsSize(Run(v, ms[..|ms| - 1]).value, ms[|ms| - 1]);
    }
  }

  /** The file at k is not in `moved` and fits into a span of length numi. */
  predicate Fits(vec: seq<Object>, moved: set<Object>, k: nat, numi: nat)
    requires k < |vec|
  {
    vec[k].File? && vec[k] !in moved && vec[k].size <= numi
  }

  /** The inner loop of `try_swapping`: the indices from the right end down to
      i are scanned for the first file that is not in `moved` and fits. */
  method FindFit(vec: seq<Object>, moved: set<Object>, i: nat, numi: nat) returns (r: Option<nat>)
    requires i < |vec|
    ensures r.Some? ==> i <= r.value < |vec| && Fits(vec, moved, r.value, numi)
    ensures r.Some? ==> forall k :: r.value < k < |vec| ==> !Fits(vec, moved, k, numi)
    ensures r.None? ==> forall k :: i <= k < |vec| ==> !Fits(vec, moved, k, numi)
  {
    var j: int := |vec| - 1;
    while j >= i
      invariant i - 1 <= j < |vec|
      invariant forall k :: j < k < |vec| ==> !Fits(vec, moved, k, numi)
      decreases j
    {
      if vec[j].File? {
        if vec[j] in moved {
          j := j - 1;
          continue;
        }
        if vec[j].size <= numi {
          return Some(j);
        }
      }
      j := j - 1;
    }
    return None;
  }

  /** Move m takes the rightmost file after the span that is not in `moved`
      and fits it, the one `FindFit` finds. */
  predicate RightmostFit(v: seq<Object>, moved: set<Object>, m: Move)
  {
    ValidMove(v, m) && v[m.j] !in moved &&
    forall k :: m.j < k < |v| ==> !Fits(v, moved, k, v[m.i].size)
  }

  /** `moved_objects` after a run of moves: each move adds the value read
      back from the vacated slot, the free span the file moved into. */
  function MovedAfter(v: seq<Object>, moved: set<Object>, ms: seq<Move>): set<Object>
  {
    if ms == [] then moved
    else
      var w := Run(v, ms[..|ms| - 1]);
      var m := ms[|ms| - 1];
      MovedAfter(v, moved, ms[..|ms| - 1]) + (if w.Some? && m.i < |w.value| then {w.value[m.i]} else {})
  }

  /** Every move of the run is the rightmost fit on the disk and with the
      moved set of its moment. */
  predicate FitsRun(v: seq<Object>, moved: set<Object>, ms: seq<Move>)
  {
    if ms == [] then true
    else
      var w := Run(v, ms[..|ms| - 1]);
      FitsRun(v, moved, ms[..|ms| - 1]) && w.Some? &&
      RightmostFit(w.value, MovedAfter(v, moved, ms[..|ms| - 1]), ms[|ms| - 1])
  }

  lemma {:induction false} MovedAfterAppend(v: seq<Object>, moved: set<Object>, a: seq<Move>, b: seq<Move>)
    requires Run(v, a).Some?
    ensures MovedAfter(v, moved, a + b) == MovedAfter(Run(v, a).value, MovedAfter(v, moved, a), b)
  {
    if b == [] {
      assert a + b == a;
    } else {
      var b' := b[..|b| - 1];
      assert (a + b)[..|a + b| - 1] == a + b';
      assert (a + b)[|a + b| - 1] == b[|b| - 1];
      MovedAfterAppend(v, moved, a, b');
      RunAppend(v, a, b');
    }
  }

  /** Two runs of rightmost fits, the second from where the first ended,
      make one. */
  lemma {:induction false} FitsRunAppend(v: seq<Object>, moved: set<Object>, a: seq<Move>, b: seq<Move>)
    requires Run(v, a).Some? && FitsRun(v, moved, a)
    requires FitsRun(Run(v, a).value, MovedAfter(v, moved, a), b)
    ensures FitsRun(v, moved, a + b)
  {
    if b == [] {
      assert a + b == a;
    } else {
      var b' := b[..|b| - 1];
      assert (a + b)[..|a + b| - 1] == a + b';
      assert (a + b)[|a + b| - 1] == b[|b| - 1];
      FitsRunAppend(v, moved, a, b');
      RunAppend(v, a, b');
      MovedAfterAppend(v, moved, a, b');
    }
  }

  /** The move itself; `back` is the value read from slot j right after the
      swap, the one `try_swapping` inserts into `moved`. */
  method MoveFile(vec: seq<Object>, i: nat, j: nat) returns (w: seq<Object>, back: Object)
    requires ValidMove(vec, Move(i, j))
    ensures w == MoveAt(vec, Move(i, j))
    ensures back == vec[i] && back.FreeSpace?
  {
    var numi, numj := vec[i].size, vec[j].size;
    w := vec[i := vec[j]][j := vec[i]];
    back := w[j];
    if numi > numj {
      var diff := numi - numj;
      w := w[j := FreeSpace(numj)];
      w := Insert(w, i + 1, FreeSpace(diff));
    }
  }

  /** `try_swapping`: for each free span i from the left (over the indices
      the disk had at the start), the rightmost file that is not in `moved`
      and fits is moved into it. It reports whether anything moved; when
      nothing did, no file outside `moved` could. */
  method TrySwapping(vec0: seq<Object>, moved0: set<Object>)
    returns (vec: seq<Object>, moved: set<Object>, swapped: bool, ghost moves: seq<Move>)
    ensures Run(vec0, moves) == Some(vec)
    ensures FitsRun(vec0, moved0, moves) && moved == MovedAfter(vec0, moved0, moves)
    ensures swapped <==> |moves| > 0
    ensures !swapped ==> StuckOutside(vec0, moved0)
    ensures forall o :: o in moved ==> o in moved0 || o.FreeSpace?
  {
    vec, moved := vec0, moved0;
    moves := [];
    var swapCount := 0;
    var n := |vec|;
    for i := 0 to n
      invariant |vec| >= n
      invariant Run(vec0, moves) == Some(vec)
      invariant FitsRun(vec0, moved0, moves) && moved == MovedAfter(vec0, moved0, moves)
      invariant swapCount == |moves|
      invariant forall o :: o in moved ==> o in moved0 || o.FreeSpace?
      invariant swapCount == 0 ==> vec == vec0 && moved == moved0
      invariant swapCount == 0 ==>
        forall a, b :: 0 <= a < i && a < b < |vec0| && vec0[a].FreeSpace? ==> !Fits(vec0, moved0, b, vec0[a].size)
    {
      if vec[i].FreeSpace? {
        var numi := vec[i].size;
        var found := FindFit(vec, moved, i, numi);
        if found.Some? {
          var j := found.value;
          ghost var m := Move(i, j);
          assert i <= j < |vec| && Fits(vec, moved, j, numi);
          assert vec[j].File? && vec[j].size <= numi;
          assert i != j;
          assert ValidMove(vec, m);
          RunSnoc(vec0, moves, m);
          assert (moves + [m])[..|moves|] == moves;
          assert RightmostFit(vec, moved, m);
          var back;
          vec, back := MoveFile(vec, i, j);
          moved := moved + {back};
          swapCount := swapCount + 1;
          moves := moves + [m];
        }
      }
    }
    swapped := swapCount >= 1;
    if !swapped {
      forall a, b | 0 <= a < b < |vec0| && vec0[a].FreeSpace? && vec0[b].File? && vec0[b] !in moved0
        ensures vec0[b].size > vec0[a].size
      {
        assert !Fits(vec0, moved0, b, vec0[a].size);
      }
    }
  }

  // ---------------------------------------------------------------------------
  // Why the loop of part_two ends

  /** The sum, over the files of v, of the unit cell where each one starts. */
  function Offsets(v: seq<Object>): nat
  {
    if v == [] then 0
    else Offsets(v[..|v| - 1]) + (if v[|v| - 1].File? then TotalSize(v[..|v| - 1]) else 0)
  }

  /** The sum, over the files of v, of their indices in the vector. */
  function Indices(v: seq<Object>): nat
  {
    if v == [] then 0
    else Indices(v[..|v| - 1]) + (if v[|v| - 1].File? then |v| - 1 else 0)
  }

  lemma {:induction false} OffsetsAppend(a: seq<Object>, b: seq<Object>)
    ensures Offsets(a + b) == Offsets(a) + Offsets(b) + TotalSize(a) * FileCount(b)
  {
    if b == [] {
      assert a + b == a;
    } else {
      var b', x := b[..|b| - 1], b[|b| - 1];
      var e := if x.File? then 1 else 0;
      assert (a + b)[..|a + b| - 1] == a + b';
      assert (a + b)[|a + b| - 1] == x;
      assert Offsets(a + b) == Offsets(a + b') + e * TotalSize(a + b');
      assert Offsets(b) == Offsets(b') + e * TotalSize(b');
      assert FileCount(b) == FileCount(b') + e;
      OffsetsAppend(a, b');
      TotalSizeAppend(a, b');
      SumStep(Offsets(a) + Offsets(b'), TotalSize(a), TotalSize(b'), FileCount(b'), e);
    }
  }

  lemma {:induction false} IndicesAppend(a: seq<Object>, b: seq<Object>)
    ensures Indices(a + b) == Indices(a) + Indices(b) + |a| * FileCount(b)
  {
    if b == [] {
      assert a + b == a;
    } else {
      var b', x := b[..|b| - 1], b[|b| - 1];
      var e := if x.File? then 1 else 0;
      assert (a + b)[..|a + b| - 1] == a + b';
      assert (a + b)[|a + b| - 1] == x;
      assert Indices(a + b) == Indices(a + b') + e * (|a| + |b'|);
      assert Indices(b) == Indices(b') + e * |b'|;
      assert FileCount(b) == FileCount(b') + e;
      IndicesAppend(a, b');
      SumStep(Indices(a) + Indices(b'), |a|, |b'|, FileCount(b'), e);
    }
  }

  lemma SumStep(o: nat, ta: nat, tb: nat, f: nat, e: nat)
    requires e <= 1
    ensures o + ta * f + e * (ta + tb) == o + e * tb + ta * (f + e)
  {
  }

  /** Replacing a middle part by one of the same size and file count changes
      both sums only by what changes inside that part. */
  lemma SumsMiddle(a: seq<Object>, m: seq<Object>, m': seq<Object>, c: seq<Object>)
    requires TotalSize(m) == TotalSize(m') && FileCount(m) == FileCount(m')
    ensures Offsets(a + m + c) + Offsets(m') == Offsets(a + m' + c) + Offsets(m)
    ensures |m| == |m'| ==> Indices(a + m + c) + Indices(m') == Indices(a + m' + c) + Indices(m)
  {
    OffsetsAppend(a + m, c);
    OffsetsAppend(a + m', c);
    OffsetsAppend(a, m);
    OffsetsAppend(a, m');
    TotalSizeAppend(a, m);
    TotalSizeAppend(a, m');
    IndicesAppend(a + m, c);
    IndicesAppend(a + m', c);
    IndicesAppend(a, m);
    IndicesAppend(a, m');
  }

  lemma Single(x: Object)
    ensures Offsets([x]) == 0 && Indices([x]) == 0 && TotalSize([x]) == x.size
    ensures FileCount([x]) == if x.File? then 1 else 0
  {
    assert [x][..0] == [];
  }

  /** The last element of a snoc, for the four sums. */
  lemma Last(h: seq<Object>, y: Object)
    ensures Offsets(h + [y]) == Offsets(h) + (if y.File? then TotalSize(h) else 0)
    ensures Indices(h + [y]) == Indices(h) + (if y.File? then |h| else 0)
    ensures TotalSize(h + [y]) == TotalSize(h) + y.size
    ensures FileCount(h + [y]) == FileCount(h) + (if y.File? then 1 else 0)
  {
    assert (h + [y])[..|h|] == h;
  }

  /** The sums of a free span, a middle part and a file. */
  lemma SumsAround(x: Object, b: seq<Object>, y: Object)
    requires x.FreeSpace? && y.File?
    ensures Offsets([x] + b + [y]) == Offsets(b) + x.size * FileCount(b) + x.size + TotalSize(b)
    ensures Indices([x] + b + [y]) == Indices(b) + FileCount(b) + |b| + 1
    ensures TotalSize([x] + b + [y]) == x.size + TotalSize(b) + y.size
    ensures FileCount([x] + b + [y]) == FileCount(b) + 1
  {
    Last([x] + b, y);
    Single(x);
    OffsetsAppend([x], b);
    IndicesAppend([x], b);
    TotalSizeAppend([x], b);
    FileCountAppend([x], b);
  }

  /** The sums of the same span after the file moved into it. */
  lemma SumsMoved(y: Object, rest: seq<Object>, b: seq<Object>, z: Object)
    requires y.File? && z.FreeSpace? && forall k :: 0 <= k < |rest| ==> rest[k].FreeSpace?
    ensures Offsets([y] + rest + b + [z]) == Offsets(b) + (y.size + TotalSize(rest)) * FileCount(b)
    ensures Indices([y] + rest + b + [z]) == Indices(b) + (1 + |rest|) * FileCount(b)
    ensures TotalSize([y] + rest + b + [z]) == y.size + TotalSize(rest) + TotalSize(b) + z.size
    ensures FileCount([y] + rest + b + [z]) == FileCount(b) + 1
  {
    var h := [y] + rest;
    Last(h + b, z);
    OffsetsAppend(h, b);
    IndicesAppend(h, b);
    TotalSizeAppend(h, b);
    FileCountAppend(h, b);
    FreeHead(y, rest);
  }

  lemma {:induction false} FreeHead(y: Object, rest: seq<Object>)
    requires y.File? && forall k :: 0 <= k < |rest| ==> rest[k].FreeSpace?
    ensures Offsets([y] + rest) == 0 && Indices([y] + rest) == 0
    ensures TotalSize([y] + rest) == y.size + TotalSize(rest) && FileCount([y] + rest) == 1
  {
    if rest == [] {
      Single(y);
      assert [y] + rest == [y];
    } else {
      var n := |rest| - 1;
      assert [y] + rest == ([y] + rest[..n]) + [rest[n]];
      assert rest[..n] + [rest[n]] == rest;
      Last([y] + rest[..n], rest[n]);
      Last(rest[..n], rest[n]);
      FreeHead(y, rest[..n]);
    }
  }

  /** The file order: fewer unit offsets, or as many and smaller indices. */
  predicate Below(w: seq<Object>, v: seq<Object>)
  {
    Offsets(w) < Offsets(v) || (Offsets(w) == Offsets(v) && Indices(w) < Indices(v))
  }

  lemma SwapParts(v: seq<Object>, m: Move)
    requires ValidMove(v, m)
    ensures v[m.i := v[m.j]][m.j := v[m.i]] == v[..m.i] + ([v[m.j]] + [] + v[m.i + 1..m.j] + [v[m.i]]) + v[m.j + 1..]
  {
  }

  /** The disk with the file in the span and free space in its old slot,
      cut right after the file's new place. */
  lemma CutParts(v: seq<Object>, m: Move)
    requires ValidMove(v, m)
    ensures var cut := v[m.i := v[m.j]][m.j := v[m.i]][m.j := FreeSpace(v[m.j].size)];
      && |cut| == |v|
      && cut[..m.i + 1] == v[..m.i] + [v[m.j]]
      && cut[m.i + 1..] == v[m.i + 1..m.j] + [FreeSpace(v[m.j].size)] + v[m.j + 1..]
  {
  }

  /** A split move as three parts. */
  lemma SplitParts(v: seq<Object>, m: Move)
    requires ValidMove(v, m) && v[m.i].size != v[m.j].size
    ensures MoveAt(v, m) == v[..m.i] + ([v[m.j]] + [FreeSpace(v[m.i].size - v[m.j].size)] + v[m.i + 1..m.j] + [FreeSpace(v[m.j].size)]) + v[m.j + 1..]
  {
    var cut := v[m.i := v[m.j]][m.j := v[m.i]][m.j := FreeSpace(v[m.j].size)];
    CutParts(v, m);
    assert MoveAt(v, m) == cut[..m.i + 1] + [FreeSpace(v[m.i].size - v[m.j].size)] + cut[m.i + 1..];
  }

  /** The sums across a swap of a free span and a file of the same size. */
  lemma SwapSums(a: seq<Object>, x: Object, b: seq<Object>, y: Object, c: seq<Object>)
    requires x.FreeSpace? && y.File? && x.size == y.size
    ensures Offsets(a + ([y] + [] + b + [x]) + c) + x.size + TotalSize(b) == Offsets(a + ([x] + b + [y]) + c)
    ensures Indices(a + ([y] + [] + b + [x]) + c) + |b| + 1 == Indices(a + ([x] + b + [y]) + c)
  {
    SumsAround(x, b, y);
    SumsMoved(y, [], b, x);
    assert y.size + TotalSize([]) == x.size;
    assert 1 * FileCount(b) == FileCount(b);
    SumsMiddle(a, [x] + b + [y], [y] + [] + b + [x], c);
  }

  /** The sums across a move of a file into a longer free span. */
  lemma SplitSums(a: seq<Object>, x: Object, b: seq<Object>, y: Object, c: seq<Object>)
    requires x.FreeSpace? && y.File? && x.size > y.size
    ensures var d := FreeSpace(x.size - y.size);
      Offsets(a + ([y] + [d] + b + [FreeSpace(y.size)]) + c) + x.size + TotalSize(b) == Offsets(a + ([x] + b + [y]) + c)
  {
    var d := FreeSpace(x.size - y.size);
    Single(d);
    SumsAround(x, b, y);
    SumsMoved(y, [d], b, FreeSpace(y.size));
    assert y.size + TotalSize([d]) == x.size;
    SumsMiddle(a, [x] + b + [y], [y] + [d] + b + [FreeSpace(y.size)], c);
  }

  /** A move lowers the files' summed start units by exactly the units
      between the span and the file; when that distance is 0 the move is a
      swap of equal sizes and the files' summed indices drop by the distance
      in runs. So every move goes down in the file order. */
  lemma MoveDescends(v: seq<Object>, m: Move)
    requires ValidMove(v, m)
    ensures Offsets(MoveAt(v, m)) + TotalSize(v[m.i..m.j]) == Offsets(v)
    ensures v[m.i].size == v[m.j].size ==> Indices(MoveAt(v, m)) + (m.j - m.i) == Indices(v)
    ensures Below(MoveAt(v, m), v)
  {
    if v[m.i].size == v[m.j].size {
      SwapDescends(v, m);
    } else {
      SplitDescends(v, m);
    }
  }

  /** The disk around a move: left of the span, the span, the files and
      spans between, the file, right of the file. */
  lemma ThreeParts(v: seq<Object>, m: Move)
    requires ValidMove(v, m)
    ensures v == v[..m.i] + ([v[m.i]] + v[m.i + 1..m.j] + [v[m.j]]) + v[m.j + 1..]
    ensures TotalSize(v[m.i..m.j]) == v[m.i].size + TotalSize(v[m.i + 1..m.j])
  {
    assert v[m.i..m.j] == [v[m.i]] + v[m.i + 1..m.j];
    TotalSizeAppend([v[m.i]], v[m.i + 1..m.j]);
    Single(v[m.i]);
  }

  lemma SwapDescends(v: seq<Object>, m: Move)
    requires ValidMove(v, m) && v[m.i].size == v[m.j].size
    ensures Offsets(MoveAt(v, m)) + TotalSize(v[m.i..m.j]) == Offsets(v)
    ensures Indices(MoveAt(v, m)) + (m.j - m.i) == Indices(v)
  {
    ThreeParts(v, m);
    SwapParts(v, m);
    SwapSums(v[..m.i], v[m.i], v[m.i + 1..m.j], v[m.j], v[m.j + 1..]);
  }

  lemma SplitDescends(v: seq<Object>, m: Move)
    requires ValidMove(v, m) && v[m.i].size != v[m.j].size
    ensures Offsets(MoveAt(v, m)) + TotalSize(v[m.i..m.j]) == Offsets(v)
    ensures TotalSize(v[m.i..m.j]) > 0
  {
    ThreeParts(v, m);
    SplitParts(v, m);
    SplitSumsAt(v, MoveAt(v, m), v[..m.i], v[m.i], v[m.i + 1..m.j], v[m.j], v[m.j + 1..], TotalSize(v[m.i..m.j]));
  }

  lemma SplitSumsAt(v: seq<Object>, w: seq<Object>, a: seq<Object>, x: Object, b: seq<Object>, y: Object, c: seq<Object>, t: nat)
    requires x.FreeSpace? && y.File? && x.size > y.size
    requires v == a + ([x] + b + [y]) + c && t == x.size + TotalSize(b)
    requires w == a + ([y] + [FreeSpace(x.size - y.size)] + b + [FreeSpace(y.size)]) + c
    ensures Offsets(w) + t == Offsets(v) && t > 0
  {
    SplitSums(a, x, b, y, c);
  }

  /** Every run of at least one move goes down in the file order. */
  lemma {:induction false} RunDescends(v: seq<Object>, ms: seq<Move>)
    requires Run(v, ms).Some? && |ms| > 0
    ensures Below(Run(v, ms).value, v)
  {
    var init, m := ms[..|ms| - 1], ms[|ms| - 1];
    var u := Run(v, init).value;
    MoveDescends(u, m);
    if |init| > 0 {
      RunDescends(v, init);
    }
  }

  /** `part_two`: parse into runs, call `try_swapping` until it reports no
      move, expand to unit cells and sum the checksums. The loop ends because
      every pass that moves something goes down in the file order. The
      answer is the checksum of a disk reached by rightmost fits on which
      no file can move any more. */
  method PartTwo(input: string) returns (r: nat)
    ensures exists ms: seq<Move>, w: seq<Object> ::
      Run(Parse(input, false), ms) == Some(w) && FitsRun(Parse(input, false), {}, ms) &&
      Stuck(w) && r == CheckSum(Ones(w))
  {
    var vec := ParseIntoVec(input, false);
    ghost var v0 := vec;
    var moved: set<Object> := {};
    ghost var ms: seq<Move> := [];
    while true
      invariant Run(v0, ms) == Some(vec)
      invariant FitsRun(v0, {}, ms) && moved == MovedAfter(v0, {}, ms)
      invariant AllFree(moved)
      decreases Offsets(vec), Indices(vec)
    {
      var vec', moved', swapped, moves := TrySwapping(vec, moved);
      RunAppend(v0, ms, moves);
      if !swapped {
        NeverSkips(vec, moved);
        break;
      }
      RunDescends(vec, moves);
      MovedAfterAppend(v0, {}, ms, moves);
      FitsRunAppend(v0, {}, ms, moves);
      vec, moved, ms := vec', moved', ms + moves;
    }
    var ones := ConvertToOnes(vec);
    r := CheckSum(ones);
  }
}
