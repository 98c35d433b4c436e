/** The glob tool: it asks for one match more than it wants, prints and reads back the lines,
    and says whether there was more. */
module GlobTool {
  import opened Common
  import opened Text
  import opened Walk

  datatype Response = Response(files: seq<string>, count: nat, truncated: bool)

  /** `print` of every match. */
  function Print(matches: seq<string>): string {
    if matches == [] then "" else matches[0] + "\n" + Print(matches[1..])
  }

  function NotBlank(lines: seq<string>): seq<string> {
    if lines == [] then [] else (if Blank(lines[0]) then [] else [lines[0]]) + NotBlank(lines[1..])
  }

  /** What `remote_glob` makes of the output of the command. */
  function Respond(stdout: string, maxResults: nat): Response {
    var files := NotBlank(Lines(stdout));
    Response(Take(files, maxResults), if |files| < maxResults then |files| else maxResults, |files| > maxResults)
  }

  lemma {:induction false} PrintIsJoin(matches: seq<string>)
    requires matches != []
    ensures Print(matches) == Join(matches, "\n") + "\n"
  {
    if |matches| == 1 {
      assert Print(matches[1..]) == "";
      assert matches[0] + "\n" + "" == matches[0] + "\n";
    } else {
      PrintIsJoin(matches[1..]);
    }
  }

  lemma {:induction false} JoinEnds(lines: seq<string>)
    requires lines != [] && forall l :: l in lines ==> OneLine(l) && l != ""
    ensures Join(lines, "\n") != "" && Join(lines, "\n")[|Join(lines, "\n")| - 1] != '\n'
  {
    var l := lines[0];
    assert l in lines && !BreaksLine(l[|l| - 1]);
    if |lines| > 1 {
      JoinEnds(lines[1..]);
    }
  }

  lemma {:induction false} NotBlankIsAll(lines: seq<string>)
    requires forall l :: l in lines ==> !Blank(l)
    ensures NotBlank(lines) == lines
  {
    if lines != [] {
      assert lines[0] in lines;
      NotBlankIsAll(lines[1..]);
    }
  }

  /** Printed matches are read back. */
  lemma ReadBack(matches: seq<string>)
    requires forall l :: l in matches ==> OneLine(l) && !Blank(l)
    ensures NotBlank(Lines(StripNewlines(Print(matches)))) == matches
  {
    if matches == [] {
      assert StripNewlines("") == "" && Lines("") == [];
    } else {
      var s := Join(matches, "\n");
      assert forall l :: l in matches ==> l != "";
      PrintIsJoin(matches);
      JoinEnds(matches);
      StripNewlinesIs(s + "\n", s);
      LinesOfJoin(matches);
      NotBlankIsAll(matches);
    }
  }

  lemma PathHasSlash(directory: string, name: string)
    requires directory != ""
    ensures '/' in JoinPath(directory, name)
  {
    if directory[|directory| - 1] == '/' {
      assert (directory + name)[|directory| - 1] == '/';
    } else {
      assert (directory + "/" + name)[|directory|] == '/';
    }
  }

  lemma {:induction false} FoundHasSlash(p: Place, steps: seq<Entry>, found: string, accept: string -> bool)
    requires p.path != "" && LeadsTo(p, steps, found, accept)
    ensures '/' in found
    decreases |steps|
  {
    PathHasSlash(p.path, steps[0].name);
    hide JoinPath;
    if |steps| > 1 {
      var q := Place(JoinPath(p.path, steps[0].name), steps[0].node.entries);
      FoundHasSlash(q, steps[1..], found, accept);
    }
  }

  /** What the walk finds below a directory is never blank. */
  lemma WalkedIsNotBlank(path: string, entries: seq<Entry>, accept: string -> bool, found: string)
    requires path != "" && found in Complete([Place(path, entries)], accept)
    ensures !Blank(found)
  {
    CompleteIsAll([Place(path, entries)], accept, found);
    var p :| p in [Place(path, entries)] && LiesIn(p, found, accept);
    var steps: seq<Entry> :| LeadsTo(p, steps, found, accept);
    FoundHasSlash(p, steps, found, accept);
    assert !IsSpace('/');
  }

  /** The tool answers with the first matches of the complete walk, and says truncated exactly
      when there are more.  The one exception is a root that is itself a regular file with a
      name of nothing but white space: its line is taken for an empty one. */
  lemma GlobAnswers(path: string, root: Root, accept: string -> bool, maxResults: nat, stdout: string)
    requires path != "" && maxResults >= 1
    requires forall found :: found in All(path, root, accept) ==> OneLine(found)
    requires stdout == StripNewlines(Print(Take(All(path, root, accept), maxResults + 1)))
    ensures var kept := if root.RegularFile? && Blank(path) then [] else All(path, root, accept);
            && Respond(stdout, maxResults).files == Take(kept, maxResults)
            && Respond(stdout, maxResults).count == |Take(kept, maxResults)|
            && (Respond(stdout, maxResults).truncated <==> |kept| > maxResults)
  {
    var all := All(path, root, accept);
    var printed := Take(all, maxResults + 1);
    if root.RegularFile? && Blank(path) {
      assert printed != [] ==> path in all;
      BlankIsDropped(path, printed);
    } else {
      forall l | l in printed ensures OneLine(l) && !Blank(l) {
        assert l in all;
        if root.Directory? {
          WalkedIsNotBlank(path, root.entries, accept, l);
        }
      }
      hide All, Print, Lines, NotBlank, StripNewlines;
      ReadBack(printed);
    }
  }

  lemma BlankIsDropped(path: string, printed: seq<string>)
    requires Blank(path) && path != "" && (printed == [] || (printed == [path] && OneLine(path)))
    ensures NotBlank(Lines(StripNewlines(Print(printed)))) == []
  {
    if printed == [path] {
      PrintIsJoin([path]);
      StripNewlinesIs(path + "\n", path);
      LinesOfJoin([path]);
    }
  }
}
