/** The loop that deletes and appends in the file list it is enumerating, meant to bring the
    offcore matrix file to the front. */
module JsonFileOrder {

  /** One pass of the enumeration at index i: a file that is not a matrix file moves to the
      end, and the file that slides into its place is never looked at. */
  function Pass(isMatrix: string -> bool, files: seq<string>, i: nat): seq<string>
    requires i < |files|
  {
    if isMatrix(files[i]) then files else files[..i] + files[i + 1..] + [files[i]]
  }

  function Reordered(isMatrix: string -> bool, files: seq<string>, i: nat): (r: seq<string>)
    ensures |r| == |files|
    decreases |files| - i
  {
    if i >= |files| then files else Reordered(isMatrix, Pass(isMatrix, files, i), i + 1)
  }

  class FileList {
    var files: seq<string>

    constructor (files: seq<string>)
      ensures this.files == files
    {
      this.files := files;
    }

    method Reorder(isMatrix: string -> bool)
      modifies this
      ensures files == Reordered(isMatrix, old(files), 0)
    {
      var index := 0;
      while index < |files|
        invariant Reordered(isMatrix, files, index) == Reordered(isMatrix, old(files), 0)
      {
        var aFile := files[index];
        if !isMatrix(aFile) {
          files := files[..index] + files[index + 1..];
          files := files + [aFile];
        }
        index := index + 1;
      }
    }
  }

  lemma PassKeeps(isMatrix: string -> bool, files: seq<string>, i: nat)
    requires i < |files|
    ensures multiset(Pass(isMatrix, files, i)) == multiset(files)
  {
    assert files == files[..i] + [files[i]] + files[i + 1..];
  }

  /** No file is lost or duplicated. */
  lemma {:induction false} ReorderKeepsFiles(isMatrix: string -> bool, files: seq<string>, i: nat)
    ensures multiset(Reordered(isMatrix, files, i)) == multiset(files)
    decreases |files| - i
  {
    if i < |files| {
      PassKeeps(isMatrix, files, i);
      ReorderKeepsFiles(isMatrix, Pass(isMatrix, files, i), i + 1);
    }
  }

  lemma {:induction false} EarlierUntouched(isMatrix: string -> bool, files: seq<string>, i: nat, k: nat)
    requires k < i && k < |files|
    ensures Reordered(isMatrix, files, i)[k] == files[k]
    decreases |files| - i
  {
    if i < |files| {
      EarlierUntouched(isMatrix, Pass(isMatrix, files, i), i + 1, k);
    }
  }

  /** With any number of matrix files: one ends up first exactly when one stood at index 0 or 1. */
  lemma {:induction false} MatrixFirst(isMatrix: string -> bool, files: seq<string>)
    requires files != []
    ensures isMatrix(Reordered(isMatrix, files, 0)[0]) <==> isMatrix(files[0]) || (|files| > 1 && isMatrix(files[1]))
  {
    EarlierUntouched(isMatrix, Pass(isMatrix, files, 0), 1, 0);
  }

  /** The file at m is the only matrix file. */
  ghost predicate OnlyMatrix(isMatrix: string -> bool, files: seq<string>, m: nat) {
    m < |files| && forall k :: 0 <= k < |files| ==> (isMatrix(files[k]) <==> k == m)
  }

  /** A pass before the matrix file moves it one step forward. */
  lemma PassShifts(isMatrix: string -> bool, files: seq<string>, i: nat, m: nat) returns (next: seq<string>)
    requires i < m && OnlyMatrix(isMatrix, files, m)
    ensures OnlyMatrix(isMatrix, next, m - 1) && next[m - 1] == files[m] && |next| == |files|
    ensures Reordered(isMatrix, files, i) == Reordered(isMatrix, next, i + 1)
  {
    next := Pass(isMatrix, files, i);
    forall k | 0 <= k < |files|
      ensures isMatrix(next[k]) <==> k == m - 1
    {
      assert next[k] == if k < i then files[k] else if k + 1 < |files| then files[k + 1] else files[i];
    }
  }

  lemma MatrixStays(isMatrix: string -> bool, files: seq<string>, i: nat, m: nat)
    requires OnlyMatrix(isMatrix, files, m) && i <= m <= i + 1
    ensures Reordered(isMatrix, files, i)[i] == files[m]
  {
    if i < m {
      var next := PassShifts(isMatrix, files, i, m);
      EarlierUntouched(isMatrix, next, i + 1, i);
    } else {
      EarlierUntouched(isMatrix, files, i + 1, i);
    }
  }

  /** The index and the matrix file meet half way, at the target. */
  lemma {:induction false} MatrixMoves(isMatrix: string -> bool, files: seq<string>, i: nat, m: nat, target: nat)
    requires OnlyMatrix(isMatrix, files, m) && i <= target
    requires m - i == 2 * (target - i) || m - i == 2 * (target - i) + 1
    ensures Reordered(isMatrix, files, i)[target] == files[m]
    decreases target - i
  {
    if i == target {
      MatrixStays(isMatrix, files, i, m);
    } else {
      var next := PassShifts(isMatrix, files, i, m);
      MatrixMoves(isMatrix, next, i + 1, m - 1, target);
    }
  }

  /** A single matrix file moves from index m to m / 2. */
  lemma SingleMatrix(isMatrix: string -> bool, files: seq<string>, m: nat)
    requires OnlyMatrix(isMatrix, files, m)
    ensures Reordered(isMatrix, files, 0)[m / 2] == files[m]
    ensures isMatrix(Reordered(isMatrix, files, 0)[0]) <==> m <= 1
  {
    MatrixMoves(isMatrix, files, 0, m, m / 2);
    MatrixFirst(isMatrix, files);
  }

  /** The file looked at in pass j, when all passes from i on until then move their file away. */
  function Visited(files: seq<string>, i: nat, j: nat): string {
    if 0 <= 2 * j - i < |files| then files[2 * j - i] else ""
  }

  lemma {:induction false} VisitedNext(isMatrix: string -> bool, files: seq<string>, i: nat, j: nat)
    requires i < j && 2 * j - i < |files| && !isMatrix(files[i])
    ensures Visited(Pass(isMatrix, files, i), i + 1, j) == Visited(files, i, j)
  {
    ShiftedByPass(isMatrix, files, i, 2 * j - i - 1);
  }

  lemma {:induction false} ShiftedByPass(isMatrix: string -> bool, files: seq<string>, i: nat, j: nat)
    requires i <= j < |files| - 1 && !isMatrix(files[i])
    ensures Pass(isMatrix, files, i)[j] == files[j + 1]
  {
  }

  lemma {:induction false} SecondHere(isMatrix: string -> bool, files: seq<string>, k: nat)
    requires k + 1 < |files|
    ensures Reordered(isMatrix, files, k)[k] == if isMatrix(files[k]) then files[k] else files[k + 1]
  {
    EarlierUntouched(isMatrix, Pass(isMatrix, files, k), k + 1, k);
  }

  /** The files at every second index from i on, before that of pass k, are no matrix files. */
  ghost predicate NoneVisited(isMatrix: string -> bool, files: seq<string>, i: nat, k: nat) {
    forall j :: i <= j < k ==> !isMatrix(Visited(files, i, j))
  }

  lemma {:induction false} NextList(isMatrix: string -> bool, files: seq<string>, i: nat, k: nat) returns (next: seq<string>)
    requires i < k && 2 * k - i + 1 < |files| && NoneVisited(isMatrix, files, i, k)
    ensures |next| == |files| && Reordered(isMatrix, files, i) == Reordered(isMatrix, next, i + 1)
    ensures NoneVisited(isMatrix, next, i + 1, k)
    ensures Visited(next, i + 1, k) == Visited(files, i, k) && next[2 * k - i] == files[2 * k - i + 1]
  {
    next := Pass(isMatrix, files, i);
    var after := i + 1;
    assert Visited(files, i, i) == files[i];
    forall j | after <= j < k
      ensures !isMatrix(Visited(next, after, j))
    {
      VisitedNext(isMatrix, files, i, j);
    }
    VisitedNext(isMatrix, files, i, k);
    ShiftedByPass(isMatrix, files, i, 2 * k - i);
  }

  /** Of two neighbours the first stays if it is a matrix file, and otherwise the second takes its place. */
  function Taken(isMatrix: string -> bool, first: string, second: string): string {
    if isMatrix(first) then first else second
  }

  /** As long as only other files are come across, every second file ends up in the next place; a
      matrix file that is come across takes the place instead. */
  lemma {:induction false} EverySecond(isMatrix: string -> bool, files: seq<string>, i: nat, k: nat)
    requires i <= k && 2 * k - i + 1 < |files| && NoneVisited(isMatrix, files, i, k)
    ensures Reordered(isMatrix, files, i)[k] ==
            Taken(isMatrix, Visited(files, i, k), files[2 * k - i + 1])
    decreases k - i
  {
    if i == k {
      SecondHere(isMatrix, files, k);
    } else {
      var next := NextList(isMatrix, files, i, k);
      EverySecond(isMatrix, next, i + 1, k);
    }
  }

  /** So without a matrix file, or before one is come across, the files end up in every second place. */
  lemma {:induction false} EverySecondFile(isMatrix: string -> bool, files: seq<string>, k: nat)
    requires 2 * k + 1 < |files| && forall j :: 0 <= j < |files| ==> !isMatrix(files[j])
    ensures Reordered(isMatrix, files, 0)[k] == files[2 * k + 1]
  {
    EverySecond(isMatrix, files, 0, k);
  }
}
