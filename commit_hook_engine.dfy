/** The commit hook engine (DiffusionCommitHookEngine): the engine object
    holding the hook's standard input, repository type and viewer, the
    dispatch on the repository type, and the parser of git's pre-receive
    lines "old new ref".

    Standard input is held already split into lines: the line splitting is
    a library routine that is not part of this model. The repository and the
    viewer are held by their version control system name and PHID. */
module CommitHookEngine {
  import opened Wrappers
  import opened Strings

  /** PhabricatorRepositoryType::REPOSITORY_TYPE_GIT. */
  const RepositoryTypeGit := "git"

  datatype RefUpdate = RefUpdate(oldRev: string, newRev: string, refName: string)

  datatype HookError =
    | UnsupportedRepositoryType(vcs: string)
    | MalformedLine(line: string)

  /* -------------------------------------------------------------------- */
  /* Parsing one line: explode(' ', line, 3).                              */

  /** The line split at its first two spaces; fewer than two spaces throws. */
  function ParseLine(line: string): (r: Result<RefUpdate, HookError>)
    ensures r.Err? ==> r.error == MalformedLine(line)
    ensures r.Ok? ==> ' ' !in r.value.oldRev && ' ' !in r.value.newRev
  {
    match IndexOf(line, ' ')
    case None => Err(MalformedLine(line))
    case Some(i) =>
      var rest := line[i + 1..];
      match IndexOf(rest, ' ')
      case None => Err(MalformedLine(line))
      case Some(j) => Ok(RefUpdate(line[..i], rest[..j], rest[j + 1..]))
  }

  function CountSpaces(s: string): nat {
    if s == [] then 0 else (if s[0] == ' ' then 1 else 0) + CountSpaces(s[1..])
  }

  lemma {:induction false} CountSpacesAppend(a: string, b: string)
    ensures CountSpaces(a + b) == CountSpaces(a) + CountSpaces(b)
  {
    if a != [] {
      assert (a + b)[0] == a[0];
      assert (a + b)[1..] == a[1..] + b;
      CountSpacesAppend(a[1..], b);
    } else {
      assert a + b == b;
    }
  }

  lemma {:induction false} NoSpaceNoCount(s: string)
    requires ' ' !in s
    ensures CountSpaces(s) == 0
  {
    if s != [] {
      NoSpaceNoCount(s[1..]);
    }
  }

  lemma {:induction false} SomeSpaceCounts(s: string)
    requires ' ' in s
    ensures CountSpaces(s) >= 1
  {
    if s[0] != ' ' {
      SomeSpaceCounts(s[1..]);
    }
  }

  /** A parsed line's parts rebuild the line; the first two parts hold no
      space, so the reference keeps any further spaces. */
  lemma ParsedLineRebuilds(line: string)
    requires ParseLine(line).Ok?
    ensures var u := ParseLine(line).value;
      u.oldRev + " " + u.newRev + " " + u.refName == line && ' ' !in u.oldRev && ' ' !in u.newRev
  {
    var i := IndexOf(line, ' ').value;
    var rest := line[i + 1..];
    var j := IndexOf(rest, ' ').value;
    assert ParseLine(line).value == RefUpdate(line[..i], rest[..j], rest[j + 1..]);
    JoinAround(line, i, j);
  }

  /** Cutting out two spaces and putting them back gives the line. */
  lemma JoinAround(line: string, i: nat, j: nat)
    requires i < |line| && line[i] == ' ' && j < |line[i + 1..]| && line[i + 1..][j] == ' '
    ensures line[..i] + " " + line[i + 1..][..j] + " " + line[i + 1..][j + 1..] == line
  {
    var rest := line[i + 1..];
    SplitAround(rest, j);
    SplitAround(line, i);
    assert line[..i] + " " + rest[..j] + " " + rest[j + 1..] == line[..i] + " " + (rest[..j] + " " + rest[j + 1..]);
  }

  lemma SplitAround(s: string, k: nat)
    requires k < |s| && s[k] == ' '
    ensures s[..k] + " " + s[k + 1..] == s
  {
    assert s[..k] + [s[k]] + s[k + 1..] == s;
  }

  /** Parsing fails exactly for lines with fewer than two spaces. */
  lemma ParseLineFails(line: string)
    ensures ParseLine(line).Err? <==> CountSpaces(line) < 2
    ensures ParseLine(line).Err? ==> ParseLine(line).error == MalformedLine(line)
  {
    match IndexOf(line, ' ')
    case None =>
      NoSpaceNoCount(line);
    case Some(i) =>
      var rest := line[i + 1..];
      CountAroundFirstSpace(line, i);
      if ' ' in rest {
        SomeSpaceCounts(rest);
      } else {
        NoSpaceNoCount(rest);
      }
  }

  /** The spaces of a line are its first space and those after it. */
  lemma CountAroundFirstSpace(line: string, i: nat)
    requires i < |line| && line[i] == ' ' && ' ' !in line[..i]
    ensures CountSpaces(line) == 1 + CountSpaces(line[i + 1..])
  {
    var rest := line[i + 1..];
    assert line == line[..i] + [' '] + rest;
    CountSpacesAppend(line[..i] + [' '], rest);
    CountSpacesAppend(line[..i], [' ']);
    NoSpaceNoCount(line[..i]);
    assert CountSpaces([' ']) == 1;
  }

  /** Joining an update whose old and new values hold no space parses back
      to the same update. */
  lemma LineRoundTrip(u: RefUpdate)
    requires ' ' !in u.oldRev && ' ' !in u.newRev
    ensures ParseLine(u.oldRev + " " + u.newRev + " " + u.refName) == Ok(u)
  {
    var line := u.oldRev + " " + u.newRev + " " + u.refName;
    assert line == u.oldRev + [' '] + (u.newRev + " " + u.refName);
    IndexOfConcat(u.oldRev, ' ', u.newRev + " " + u.refName);
    var rest := line[|u.oldRev| + 1..];
    assert rest == u.newRev + [' '] + u.refName;
    IndexOfConcat(u.newRev, ' ', u.refName);
    assert line[..|u.oldRev|] == u.oldRev;
    assert rest[..|u.newRev|] == u.newRev;
    assert rest[|u.newRev| + 1..] == u.refName;
  }

  /** parseGitUpdates: one update per line in order; the first malformed
      line throws. */
  function ParseUpdates(lines: seq<string>): (r: Result<seq<RefUpdate>, HookError>)
    ensures r.Ok? ==>
      |r.value| == |lines| && forall k :: 0 <= k < |lines| ==> ParseLine(lines[k]) == Ok(r.value[k])
    ensures r.Err? ==>
      exists k :: 0 <= k < |lines| && ParseLine(lines[k]) == Err(r.error) &&
        forall m :: 0 <= m < k ==> ParseLine(lines[m]).Ok?
  {
    if lines == [] then Ok([])
    else
      var init := lines[..|lines| - 1];
      assert forall k :: 0 <= k < |init| ==> init[k] == lines[k];
      var updates :- ParseUpdates(init);
      var last :- ParseLine(lines[|lines| - 1]);
      Ok(updates + [last])
  }

  /* -------------------------------------------------------------------- */
  /* The engine object.                                                    */

  /** Unset or empty input, one empty line, is rejected as malformed. */
  lemma EmptyInputRejected()
    ensures ParseUpdates([""]) == Err(MalformedLine(""))
  {
    assert [""][..0] == [];
  }

  class Engine {
    var viewer: string
    var repositoryType: string
    var stdin: seq<string>

    /** The input starts unset; split into lines, unset or empty input is
        one empty line. */
    constructor()
      ensures viewer == "" && repositoryType == "" && stdin == [""]
    {
      viewer := "";
      repositoryType := "";
      stdin := [""];
    }

    method SetStdin(lines: seq<string>)
      modifies this
      ensures stdin == lines && viewer == old(viewer) && repositoryType == old(repositoryType)
    {
      stdin := lines;
    }

    method SetRepository(vcs: string)
      modifies this
      ensures repositoryType == vcs && viewer == old(viewer) && stdin == old(stdin)
    {
      repositoryType := vcs;
    }

    method SetViewer(phid: string)
      modifies this
      ensures viewer == phid && repositoryType == old(repositoryType) && stdin == old(stdin)
    {
      viewer := phid;
    }

    /** parseGitUpdates. */
    method ParseGitUpdates(lines: seq<string>) returns (r: Result<seq<RefUpdate>, HookError>)
      ensures r == ParseUpdates(lines)
    {
      var updates: seq<RefUpdate> := [];
      for n := 0 to |lines|
        invariant ParseUpdates(lines[..n]) == Ok(updates)
      {
        var parts := ParseLine(lines[n]);
        PrefixStep(lines, n);
        if parts.Err? {
          ParseUpdatesErrStays(lines, n + 1);
          return Err(parts.error);
        }
        updates := updates + [parts.value];
      }
      assert lines[..|lines|] == lines;
      r := Ok(updates);
    }

    /** executeGitHook: 0 once the updates parse. */
    method ExecuteGitHook() returns (r: Result<int, HookError>)
      ensures r.Ok? <==> ParseUpdates(stdin).Ok?
      ensures r.Ok? ==> r.value == 0
      ensures r.Err? ==> r.error == ParseUpdates(stdin).error
    {
      var updates := ParseGitUpdates(stdin);
      if updates.Err? {
        return Err(updates.error);
      }
      r := Ok(0);
    }

    /** execute: only git repositories are supported. */
    method Execute() returns (r: Result<int, HookError>)
      ensures repositoryType != RepositoryTypeGit ==> r == Err(UnsupportedRepositoryType(repositoryType))
      ensures repositoryType == RepositoryTypeGit ==>
        (r.Ok? <==> ParseUpdates(stdin).Ok?) && (r.Ok? ==> r.value == 0)
    {
      if repositoryType == RepositoryTypeGit {
        r := ExecuteGitHook();
      } else {
        r := Err(UnsupportedRepositoryType(repositoryType));
      }
    }
  }

  /** Parsing the first n + 1 lines: the first n, then line n. */
  lemma PrefixStep(lines: seq<string>, n: nat)
    requires n < |lines|
    ensures ParseUpdates(lines[..n + 1]) ==
      match ParseUpdates(lines[..n])
      case Err(e) => Err(e)
      case Ok(us) =>
        match ParseLine(lines[n])
        case Err(e) => Err(e)
        case Ok(u) => Ok(us + [u])
  {
    assert lines[..n + 1][..n] == lines[..n];
  }

  lemma {:induction false} ParseUpdatesErrStays(lines: seq<string>, n: nat)
    requires n <= |lines| && ParseUpdates(lines[..n]).Err?
    ensures ParseUpdates(lines) == ParseUpdates(lines[..n])
    decreases |lines| - n
  {
    if n < |lines| {
      PrefixStep(lines, n);
      ParseUpdatesErrStays(lines, n + 1);
    } else {
      assert lines[..n] == lines;
    }
  }
}
