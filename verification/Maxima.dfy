/** The computation that the map-reduce server distributes: the largest number in
    a list of files. A file is the sequence of integers that `>>` extracts.
  */
module Maxima {

  type File = seq<int>

  ghost predicate IsMax(m: int, s: seq<int>) {
    m in s && forall x <- s :: x <= m
  }

  /** All numbers of all files, in reading order. */
  ghost function Numbers(files: seq<File>): seq<int> {
    if files == [] then [] else Numbers(files[..|files| - 1]) + files[|files| - 1]
  }

  function Reduce(last: int, cur: int): (r: int)
    ensures r >= last && r >= cur && (r == last || r == cur)
  {
    if cur > last then cur else last
  }

  /** The map phase on one file. The variable that collects the maximum is not
      initialised, and stays so on a file without numbers: `garbage` is what it
      happens to hold. */
  method MapFunction(file: File, garbage: int) returns (maxNum: int)
    ensures file != [] ==> IsMax(maxNum, file)
    ensures file == [] ==> maxNum == garbage
  {
    maxNum := garbage;
    if file != [] {
      maxNum := file[0];
      assert [file[0]] + file[1..] == file;
      maxNum := Scan(file, 1, maxNum, [file[0]]);
    }
  }

  /** What the serial loop has compared after `n` files: it starts from the
      first number of the first file, or from 0 if that file has none. */
  ghost function Compared(files: seq<File>, n: nat): seq<int>
    requires n <= |files|
  {
    (if n > 0 && files[0] != [] then [] else [0]) + Numbers(files[..n])
  }

  /** The benchmark's serial loop. */
  method SerialMax(files: seq<File>) returns (maxNum: int)
    ensures files != [] && files[0] != [] ==> IsMax(maxNum, Numbers(files))
    ensures files == [] || files[0] == [] ==> IsMax(maxNum, [0] + Numbers(files))
  {
    maxNum := 0;
    var bFirst := true;
    for n := 0 to |files|
      invariant bFirst <==> n == 0
      invariant IsMax(maxNum, Compared(files, n))
    {
      var file := files[n];
      ghost var seen := Compared(files, n);
      var i := 0;
      if bFirst {
        if file != [] {
          maxNum := file[0];
          i := 1;
          seen := [file[0]];
        }
        bFirst := false;
      }
      assert seen + file[i..] == Compared(files, n + 1) by {
        assert files[..n + 1][..n] == files[..n];
        assert file[0..] == file;
      }
      maxNum := Scan(file, i, maxNum, seen);
    }
    assert files[..|files|] == files;
    assert [] + Numbers(files) == Numbers(files);
  }

  /** The extraction loop both sides share: keep the larger of what was seen and
      what comes next. */
  method Scan(file: File, start: nat, max0: int, ghost seen: seq<int>) returns (maxNum: int)
    requires start <= |file| && IsMax(max0, seen)
    ensures IsMax(maxNum, seen + file[start..])
  {
    maxNum := max0;
    var i := start;
    while i < |file|
      invariant start <= i <= |file|
      invariant IsMax(maxNum, seen + file[start..i])
    {
      var tmp := file[i];
      assert seen + file[start..i + 1] == (seen + file[start..i]) + [tmp];
      if tmp > maxNum {
        maxNum := tmp;
      }
      i := i + 1;
    }
    assert file[start..i] == file[start..];
  }

  /** Reducing the maxima of the files, whatever the order they arrive in, gives
      the maximum of all their numbers. */
  lemma {:induction false} MaxOfMaxima(files: seq<File>, maxima: map<nat, int>, m: int)
    requires files != []
    requires forall n | 0 <= n < |files| :: n in maxima && IsMax(maxima[n], files[n])
    requires exists n :: 0 <= n < |files| && maxima[n] == m
    requires forall n | 0 <= n < |files| :: maxima[n] <= m
    ensures IsMax(m, Numbers(files))
  {
    forall x | x in Numbers(files) ensures x <= m {
      var n := NumberComesFrom(files, x);
    }
    var n :| 0 <= n < |files| && maxima[n] == m;
    NumberIsThere(files, n, m);
  }

  lemma {:induction false} NumberComesFrom(files: seq<File>, x: int) returns (n: nat)
    requires x in Numbers(files)
    ensures n < |files| && x in files[n]
  {
    n := |files| - 1;
    if x !in files[n] {
      n := NumberComesFrom(files[..n], x);
    }
  }

  lemma {:induction false} NumberIsThere(files: seq<File>, n: nat, x: int)
    requires n < |files| && x in files[n]
    ensures x in Numbers(files)
  {
    if n < |files| - 1 {
      NumberIsThere(files[..|files| - 1], n, x);
    }
  }
}
