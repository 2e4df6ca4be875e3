/**
 * The search for the repository root that both modules/convenient_anaconda.py and
 * visualisation/plot_date_list.py run on import: walk the components of the working directory
 * from the top, joining them onto '/', and stop after the one named 'climate-analysis'.
 */
module RepoRoot {
  import opened Text

  const RepoName := "climate-analysis"

  /** `os.path.join(a, b)` for a component `b` that holds no '/'. */
  function PathJoin(a: string, b: string): string {
    if a == [] || a[|a| - 1] == '/' then a + b else a + "/" + b
  }

  /** Joining `parts` one by one onto `root`. */
  function JoinAll(root: string, parts: seq<string>): string {
    if parts == [] then root else PathJoin(JoinAll(root, parts[..|parts| - 1]), parts[|parts| - 1])
  }

  /** How many components the walk takes: up to the first 'climate-analysis', or all of them. */
  function Cut(parts: seq<string>): (n: nat)
    ensures n <= |parts|
    ensures |parts| > 0 ==> n >= 1
    ensures forall i :: 0 <= i < n - 1 ==> parts[i] != RepoName
    ensures n < |parts| ==> n > 0 && parts[n - 1] == RepoName
    ensures n == |parts| && n > 0 && parts[n - 1] != RepoName ==> RepoName !in parts
  {
    if parts == [] then 0
    else if parts[0] == RepoName then 1
    else 1 + Cut(parts[1..])
  }

  /** The loop at modules/convenient_anaconda.py:22-27 (and visualisation/plot_date_list.py:15-20). */
  method FindRepoRoot(cwd: string) returns (repoDir: string)
    ensures var parts := Split(cwd, '/')[1..];
            repoDir == JoinAll("/", parts[..Cut(parts)])
  {
    var parts := Split(cwd, '/')[1..];
    repoDir := "/";
    var i := 0;
    while i < |parts|
      invariant 0 <= i <= |parts|
      invariant repoDir == JoinAll("/", parts[..i])
      invariant forall k :: 0 <= k < i ==> parts[k] != RepoName
    {
      assert parts[..i + 1][..i] == parts[..i];
      repoDir := PathJoin(repoDir, parts[i]);
      if parts[i] == RepoName {
        assert Cut(parts) == i + 1 by {
          CutAt(parts, i);
        }
        return;
      }
      i := i + 1;
    }
    assert parts[..i] == parts;
    CutAbsent(parts);
  }

  lemma {:induction false} CutAt(parts: seq<string>, i: nat)
    requires i < |parts| && parts[i] == RepoName
    requires forall k :: 0 <= k < i ==> parts[k] != RepoName
    ensures Cut(parts) == i + 1
  {
    if i > 0 {
      CutAt(parts[1..], i - 1);
    }
  }

  lemma {:induction false} CutAbsent(parts: seq<string>)
    requires forall k :: 0 <= k < |parts| ==> parts[k] != RepoName
    ensures Cut(parts) == |parts|
  {
    if parts != [] {
      CutAbsent(parts[1..]);
    }
  }

  /**
   * For components that are not empty, the walk gives '/' followed by the components joined with
   * '/': the path of the working directory, cut after 'climate-analysis'.
   */
  lemma {:induction false} JoinAllOfComponents(parts: seq<string>)
    requires forall i :: 0 <= i < |parts| ==> parts[i] != [] && '/' !in parts[i]
    ensures parts == [] ==> JoinAll("/", parts) == "/"
    ensures parts != [] ==> JoinAll("/", parts) == "/" + Join(parts, '/')
  {
    if |parts| == 1 {
      assert parts[..0] == [];
      assert JoinAll("/", parts) == PathJoin("/", parts[0]);
    } else if |parts| > 1 {
      var init, last := parts[..|parts| - 1], parts[|parts| - 1];
      JoinAllOfComponents(init);
      var j := "/" + Join(init, '/');
      assert JoinAll("/", parts) == PathJoin(j, last);
      JoinLastChar(init);
      assert j[|j| - 1] != '/';
      assert PathJoin(j, last) == j + "/" + last;
      JoinSnoc(init, last);
      assert init + [last] == parts;
    }
  }

  lemma {:induction false} JoinLastChar(parts: seq<string>)
    requires |parts| >= 1
    requires forall i :: 0 <= i < |parts| ==> parts[i] != [] && '/' !in parts[i]
    ensures var j := Join(parts, '/'); j != [] && j[|j| - 1] != '/'
  {
    var last := parts[|parts| - 1];
    assert last[|last| - 1] in last;
    if |parts| > 1 {
      JoinSnoc(parts[..|parts| - 1], last);
      assert parts[..|parts| - 1] + [last] == parts;
    }
  }

  lemma {:induction false} JoinSnoc(parts: seq<string>, x: string)
    requires |parts| >= 1
    ensures Join(parts + [x], '/') == Join(parts, '/') + "/" + x
  {
    if |parts| > 1 {
      assert (parts + [x])[1..] == parts[1..] + [x];
      JoinSnoc(parts[1..], x);
    } else {
      assert (parts + [x])[1..] == [x];
    }
  }

  /** The components `cwd.split('/')[1:]` of an absolute path are the ones it was written from. */
  lemma AbsolutePathComponents(parts: seq<string>)
    requires |parts| > 0
    requires forall i :: 0 <= i < |parts| ==> '/' !in parts[i]
    ensures Split("/" + Join(parts, '/'), '/')[1..] == parts
  {
    var all := [""] + parts;
    assert all[1..] == parts;
    assert Join(all, '/') == "/" + Join(parts, '/');
    forall i | 0 <= i < |all| ensures '/' !in all[i] {
      if i > 0 { assert all[i] == parts[i - 1]; }
    }
    SplitJoin(all, '/');
  }

  /**
   * The repository root of a working directory whose path has no empty component: '/' joined
   * with its components up to and including the first 'climate-analysis', or all of them when
   * there is none. (`AbsolutePathComponents` gives those components back from the path.)
   */
  lemma RepoRootOfPath(parts: seq<string>)
    requires |parts| > 0
    requires forall i :: 0 <= i < |parts| ==> parts[i] != [] && '/' !in parts[i]
    ensures JoinAll("/", parts[..Cut(parts)]) == "/" + Join(parts[..Cut(parts)], '/')
    ensures RepoName in parts ==> parts[Cut(parts) - 1] == RepoName && RepoName !in parts[..Cut(parts) - 1]
    ensures RepoName !in parts ==> Cut(parts) == |parts|
  {
    var n := Cut(parts);
    if RepoName !in parts {
      CutAbsent(parts);
    } else {
      assert n > 0 && parts[n - 1] == RepoName;
      assert forall k :: 0 <= k < n - 1 ==> parts[..n - 1][k] == parts[k];
    }
    var prefix := parts[..n];
    assert forall i :: 0 <= i < |prefix| ==> prefix[i] == parts[i];
    JoinAllOfComponents(prefix);
  }
}
