/** The benchmark client against the server, end to end: the client joins its paths
    into one text and computes the maximum itself; the server splits the text,
    maps the files on its pool in whatever order, and reduces.
  */
module Benchmark {
  import opened Maxima
  import opened Service
  import opened Progress
  import Text

  /** At the end of this run the server is at rest, and the client on connection c,
      which is still in its worker's map, has sent this text and nothing else:
      the files asked for are those of its tokens. */
  ghost predicate HasAsked(s: State, acts: seq<Action>, c: Cid, disk: string -> File, text: string) {
    && Init(s) && Runnable(s, acts) && AtRest(Exec(s, acts))
    && InMap(Exec(s, acts), c) && c in Exec(s, acts).conns
    && var requests, paths := Exec(s, acts).conns[c].requests, Text.Tokens(text, ' ');
       && |requests| == 1 && |requests[0]| == |paths|
       && forall i | 0 <= i < |paths| :: requests[0][i] == disk(paths[i])
  }

  /** The client on connection c has been sent exactly this one number. */
  ghost predicate WasTold(s: State, acts: seq<Action>, c: Cid, v: int)
    requires Runnable(s, acts) && c in Exec(s, acts).conns
  {
    var replies := Exec(s, acts).conns[c].replies;
    |replies| == 1 && replies[0].value == v
  }

  lemma MaxIsUnique(a: int, b: int, s: seq<int>)
    requires IsMax(a, s) && IsMax(b, s)
    ensures a == b
  {
  }

  /** The largest number in the files of these paths. */
  ghost predicate IsLargest(v: int, disk: string -> File, paths: seq<string>) {
    && (exists p <- paths :: v in disk(p))
    && (forall p <- paths, x <- disk(p) :: x <= v)
  }

  lemma LargestIsMax(v: int, disk: string -> File, paths: seq<string>, files: seq<File>)
    requires |files| == |paths| && forall i | 0 <= i < |paths| :: files[i] == disk(paths[i])
    ensures IsMax(v, Numbers(files)) <==> IsLargest(v, disk, paths)
  {
    if IsLargest(v, disk, paths) {
      forall x | x in Numbers(files) ensures x <= v {
        var n := NumberComesFrom(files, x);
        assert paths[n] in paths;
      }
      var p :| p in paths && v in disk(p);
      var n :| 0 <= n < |paths| && paths[n] == p;
      NumberIsThere(files, n, v);
    }
    if IsMax(v, Numbers(files)) {
      var n := NumberComesFrom(files, v);
      assert paths[n] in paths;
      forall p, x | p in paths && x in disk(p) ensures x <= v {
        var i :| 0 <= i < |paths| && paths[i] == p;
        NumberIsThere(files, i, x);
      }
    }
  }

  lemma ServerAgrees(s: State, acts: seq<Action>, c: Cid, disk: string -> File, paths: seq<string>, v: int)
    requires paths != [] && forall p <- paths :: p != "" && ' ' !in p && disk(p) != []
    requires IsLargest(v, disk, paths) && HasAsked(s, acts, c, disk, Text.Join(paths, ' '))
    ensures WasTold(s, acts, c, v)
  {
    Text.SplitUndoesJoin(paths, ' ');
    assert paths[|paths| - 1] in paths;
    var files := Exec(s, acts).conns[c].requests[0];
    forall f <- files ensures f != [] {
      var i :| 0 <= i < |files| && files[i] == f;
      assert paths[i] in paths;
    }
    RequestIsAnswered(s, acts, c);
    LargestIsMax(v, disk, paths, files);
    MaxIsUnique(v, Exec(s, acts).conns[c].replies[0].value, Numbers(files));
  }

  /** What the benchmark does: send the joined paths, and compute the maximum
      serially. It is the largest number in the files; and whatever the server's
      threads do, once it is at rest it has told the client that same number. */
  method BenchmarkTest(paths: seq<string>, disk: string -> File) returns (text: string, maxNum: int)
    requires paths != [] && forall p <- paths :: p != "" && ' ' !in p && disk(p) != []
    ensures exists p <- paths :: maxNum in disk(p)
    ensures forall p <- paths, x <- disk(p) :: x <= maxNum
    ensures Text.Tokens(text, ' ') == paths
    ensures forall s, acts, c :: HasAsked(s, acts, c, disk, text) ==> WasTold(s, acts, c, maxNum)
  {
    assert paths[0] in paths && paths[|paths| - 1] in paths;
    var files := Files(disk, paths);
    maxNum := SerialMax(files);
    LargestIsMax(maxNum, disk, paths, files);
    text := Text.JoinPaths(paths);
    Text.SplitUndoesJoin(paths, ' ');
    forall s, acts, c | HasAsked(s, acts, c, disk, text) ensures WasTold(s, acts, c, maxNum) {
      ServerAgrees(s, acts, c, disk, paths, maxNum);
    }
  }
}
