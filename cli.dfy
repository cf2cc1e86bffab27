/** The `/project` and `/prefs` commands of `main()` in cli_entrypoint.py.
    One line of input is first parsed into a command (the chain of tests on
    the line), and a `Session` holding the four pieces of state the loop
    mutates then carries the command out. Prompts and printing are replaced
    by the `Feedback` a step returns. */
module Cli {
  import opened Common

  // ----- Python string helpers --------------------------------------------

  /** `str.isspace()` for one character, as `str.split()` and `str.strip()`
      use it. */
  predicate IsSpace(c: char) {
    var n := c as int;
    (9 <= n <= 13) || (28 <= n <= 32) || n == 0x85 || n == 0xA0 || n == 0x1680 ||
    (0x2000 <= n <= 0x200A) || n == 0x2028 || n == 0x2029 || n == 0x202F || n == 0x205F || n == 0x3000
  }

  /** A piece that `str.split()` can return: non-empty, no white space. */
  predicate Token(w: string) {
    w != [] && forall i :: 0 <= i < |w| ==> !IsSpace(w[i])
  }

  /** The longest prefix of `s` without white space. */
  function Word(s: string): (w: string)
    ensures |w| <= |s| && w == s[..|w|]
    ensures forall i :: 0 <= i < |w| ==> !IsSpace(w[i])
    ensures |w| < |s| ==> IsSpace(s[|w|])
  {
    if s == [] || IsSpace(s[0]) then [] else [s[0]] + Word(s[1..])
  }

  /** `s.split()`: the maximal runs of non-space characters, in order. */
  function Split(s: string): (r: seq<string>)
    ensures forall k :: 0 <= k < |r| ==> Token(r[k])
    decreases |s|
  {
    if s == [] then []
    else if IsSpace(s[0]) then Split(s[1..])
    else
      var w := Word(s);
      [w] + Split(s[|w|..])
  }

  /** `' '.join(words)`. */
  function Join(words: seq<string>): string {
    if words == [] then "" else if |words| == 1 then words[0] else words[0] + " " + Join(words[1..])
  }

  /** `s.lstrip()`. */
  function StripLeft(s: string): (r: string)
    ensures |r| <= |s| && r == s[|s| - |r|..]
    ensures r == [] || !IsSpace(r[0])
    ensures forall i :: 0 <= i < |s| - |r| ==> IsSpace(s[i])
  {
    if s != [] && IsSpace(s[0]) then StripLeft(s[1..]) else s
  }

  /** `s.rstrip()`. */
  function StripRight(s: string): (r: string)
    ensures |r| <= |s| && r == s[..|r|]
    ensures r == [] || !IsSpace(r[|r| - 1])
    ensures forall i :: |r| <= i < |s| ==> IsSpace(s[i])
  {
    if s != [] && IsSpace(s[|s| - 1]) then StripRight(s[..|s| - 1]) else s
  }

  /** `s.strip()`. */
  function Strip(s: string): string {
    StripRight(StripLeft(s))
  }

  /** A string that neither starts nor ends with white space is its own
      strip. */
  lemma StripKeeps(s: string)
    requires s == [] || (!IsSpace(s[0]) && !IsSpace(s[|s| - 1]))
    ensures Strip(s) == s
  {
  }

  /** A word followed by white space or by nothing is read back whole. */
  lemma {:induction false} WordOfToken(w: string, rest: string)
    requires Token(w) && (rest == [] || IsSpace(rest[0]))
    ensures Word(w + rest) == w
    decreases |w|
  {
    assert (w + rest)[0] == w[0] && (w + rest)[1..] == w[1..] + rest;
    if |w| > 1 {
      WordOfToken(w[1..], rest);
    } else {
      assert w[1..] + rest == rest;
    }
  }

  /** `' '.join` is undone by `split()` for pieces `split()` could return. */
  lemma {:induction false} SplitJoin(words: seq<string>)
    requires forall k :: 0 <= k < |words| ==> Token(words[k])
    ensures Split(Join(words)) == words
  {
    if |words| == 1 {
      var w := words[0];
      assert w + [] == w;
      WordOfToken(w, []);
      assert w[|w|..] == [];
    } else if |words| > 1 {
      var w, rest := words[0], Join(words[1..]);
      var line := w + " " + rest;
      assert line == w + (" " + rest);
      WordOfToken(w, " " + rest);
      assert line[|w|..] == " " + rest;
      assert (" " + rest)[1..] == rest;
      SplitJoin(words[1..]);
    }
  }

  /** The joined pieces start and end with a non-space character. */
  lemma {:induction false} JoinEnds(words: seq<string>)
    requires words != [] && forall k :: 0 <= k < |words| ==> Token(words[k])
    ensures var j := Join(words); j != [] && !IsSpace(j[0]) && !IsSpace(j[|j| - 1])
  {
    if |words| > 1 {
      JoinEnds(words[1..]);
    }
  }

  /** `name.lower().replace(' ', '-').replace('/', '-')`. */
  function Normalize(name: string): (pid: string)
    ensures |pid| == |name|
    ensures forall i :: 0 <= i < |name| ==>
              pid[i] == if name[i] == ' ' || name[i] == '/' then '-' else LowerChar(name[i])
    ensures IsNormal(pid)
  {
    seq(|name|, i requires 0 <= i < |name| =>
      var c := LowerChar(name[i]);
      if c == ' ' || c == '/' then '-' else c)
  }

  /** No upper-case ASCII letter, no space and no slash. */
  predicate IsNormal(pid: string) {
    forall i :: 0 <= i < |pid| ==> !('A' <= pid[i] <= 'Z') && pid[i] != ' ' && pid[i] != '/'
  }

  /** Normalising an identifier that is already normal gives it back, so
      normalising twice is normalising once. */
  lemma NormalizeIdempotent(name: string)
    ensures IsNormal(name) ==> Normalize(name) == name
    ensures Normalize(Normalize(name)) == Normalize(name)
  {
  }

  // ----- parsing a line ----------------------------------------------------

  /** What one line of input asks for. Every project identifier is already
      normalised; `Create` keeps the display name beside it. */
  datatype Command =
    | Quit
    | PrefsShow
    | PrefsSet(key: string, value: string)
    | PrefsUsage
    | Create(name: string, pid: string)
    | Select(pid: string)
    | Delete(pid: string)
    | Archive(pid: string)
    | ListProjects
    | ProjectUsage
    | Other

  /** The `/prefs` branch, on the pieces of the stripped line. */
  function ParsePrefs(parts: seq<string>): (c: Command)
    ensures c.PrefsShow? || c.PrefsSet? || c.PrefsUsage?
  {
    if |parts| == 2 && parts[1] == "show" then PrefsShow
    else if |parts| == 4 && parts[1] == "set" then PrefsSet(parts[2], parts[3])
    else PrefsUsage
  }

  /** The `/project` branch, on the pieces of the stripped line. */
  function ParseProject(parts: seq<string>): (c: Command)
    ensures c.Create? || c.Select? || c.Delete? || c.Archive? || c.ListProjects? || c.ProjectUsage?
    ensures c.Create? ==> c.pid == Normalize(c.name) && c.name == Strip(c.name)
    ensures c.Select? || c.Delete? || c.Archive? ==> IsNormal(c.pid)
  {
    if |parts| >= 3 && parts[1] == "create" then
      var name := Strip(Join(parts[2..]));
      StripKeeps(name);
      Create(name, Normalize(name))
    else if |parts| >= 3 && parts[1] == "select" then Select(Normalize(Strip(Join(parts[2..]))))
    else if |parts| == 3 && parts[1] == "delete" then Delete(Normalize(Strip(parts[2])))
    else if |parts| == 3 && parts[1] == "archive" then Archive(Normalize(Strip(parts[2])))
    else if |parts| == 2 && parts[1] == "list" then ListProjects
    else ProjectUsage
  }

  /** `show` alone shows, `set` with exactly a key and a value sets, and
      every other shape is the usage message. */
  lemma PrefsBranches(parts: seq<string>)
    ensures var c := ParsePrefs(parts);
            (c == PrefsShow <==> |parts| == 2 && parts[1] == "show") &&
            (c.PrefsSet? <==> |parts| == 4 && parts[1] == "set") &&
            (c.PrefsSet? ==> c.key == parts[2] && c.value == parts[3])
  {
  }

  /** Which sub-command each shape of line selects, and with what
      argument: `create` and `select` take every remaining word, `delete`
      and `archive` exactly one, `list` none; anything else is the usage
      message. */
  lemma ProjectBranches(parts: seq<string>)
    ensures var c := ParseProject(parts);
            (c.Create? <==> |parts| >= 3 && parts[1] == "create") &&
            (c.Create? ==> c.name == Strip(Join(parts[2..]))) &&
            (c.Select? <==> |parts| >= 3 && parts[1] == "select") &&
            (c.Select? ==> c.pid == Normalize(Strip(Join(parts[2..]))))
    ensures var c := ParseProject(parts);
            (c.Delete? <==> |parts| == 3 && parts[1] == "delete") &&
            (c.Archive? <==> |parts| == 3 && parts[1] == "archive") &&
            (c.Delete? || c.Archive? ==> c.pid == Normalize(Strip(parts[2]))) &&
            (c == ListProjects <==> |parts| == 2 && parts[1] == "list")
  {
  }

  /** `user_input.lower() in ('exit', 'quit', '/bye')`. */
  predicate QuitWord(lowered: string) {
    lowered == "exit" || lowered == "quit" || lowered == "/bye"
  }

  /** The tests the loop applies to a line, in the loop's order. The command
      word is matched on the lowered line, the sub-command on the line's own
      pieces (so it is case-sensitive). */
  function Parse(line: string): (c: Command)
    ensures c.Create? ==> c.pid == Normalize(c.name) && c.name == Strip(c.name)
    ensures c.Select? || c.Delete? || c.Archive? ==> IsNormal(c.pid)
    ensures c.PrefsSet? ==> Token(c.key) && Token(c.value)
    ensures c == Quit <==> QuitWord(Lower(line))
    ensures c == Other <==>
              !QuitWord(Lower(line)) && !StartsWith(Lower(line), "/prefs") && !StartsWith(Lower(line), "/project")
  {
    var lowered := Lower(line);
    if QuitWord(lowered) then Quit
    else if StartsWith(lowered, "/prefs") then ParsePrefs(Split(Strip(line)))
    else if StartsWith(lowered, "/project") then ParseProject(Split(Strip(line)))
    else Other
  }

  /** A line of pieces joined by single spaces splits back into those pieces. */
  lemma SplitLine(pieces: seq<string>)
    requires pieces != [] && forall k :: 0 <= k < |pieces| ==> Token(pieces[k])
    ensures Split(Strip(Join(pieces))) == pieces
  {
    JoinStrip(pieces);
    SplitJoin(pieces);
  }

  lemma JoinCons(w: string, words: seq<string>)
    requires words != []
    ensures Join([w] + words) == w + " " + Join(words)
  {
    assert ([w] + words)[1..] == words;
  }

  /** A line that starts with `/project` takes the `/project` branch. */
  lemma ProjectLine(line: string)
    requires StartsWith(line, "/project")
    ensures Parse(line) == ParseProject(Split(Strip(line)))
  {
    ProjectLower();
    LowerStartsWith(line, "/project");
    ProjectNotPrefs(Lower(line));
  }

  lemma ProjectNotPrefs(lowered: string)
    requires StartsWith(lowered, "/project")
    ensures !QuitWord(lowered) && !StartsWith(lowered, "/prefs")
  {
    assert lowered[3] == lowered[..8][3] == 'o';
    assert |lowered| >= 8;
  }

  lemma ProjectLower()
    ensures IsLower("/project")
  {
    var p := "/project";
    assert p[0] == '/' && p[1] == 'p' && p[2] == 'r' && p[3] == 'o';
    assert p[4] == 'j' && p[5] == 'e' && p[6] == 'c' && p[7] == 't';
  }

  /** `/project <sub> <words>` is read as the pieces `/project`, `sub` and
      the words, and goes to the `/project` branch. */
  lemma ProjectCommand(sub: string, words: seq<string>)
    requires Token(sub) && words != [] && forall k :: 0 <= k < |words| ==> Token(words[k])
    ensures Parse("/project " + sub + " " + Join(words)) == ParseProject(["/project", sub] + words)
  {
    var pieces := ["/project", sub] + words;
    ProjectPieces(sub, words, pieces);
    SplitLine(pieces);
    ProjectLine(Join(pieces));
  }

  lemma ProjectPieces(sub: string, words: seq<string>, pieces: seq<string>)
    requires Token(sub) && words != [] && forall k :: 0 <= k < |words| ==> Token(words[k])
    requires pieces == ["/project", sub] + words
    ensures Join(pieces) == "/project " + sub + " " + Join(words)
    ensures StartsWith(Join(pieces), "/project")
    ensures forall k :: 0 <= k < |pieces| ==> Token(pieces[k])
  {
    JoinHead("/project", sub, words, pieces);
    HeadSpace();
    ProjectToken();
    assert forall k :: 0 <= k < |pieces| ==> Token(pieces[k]) by {
      forall k | 0 <= k < |pieces| ensures Token(pieces[k]) {
        if k >= 2 { assert pieces[k] == words[k - 2]; }
      }
    }
  }

  lemma HeadSpace()
    ensures "/project" + " " == "/project " && "/prefs" + " " == "/prefs "
  {
    assert ("/project" + " ")[8] == ' ';
    assert ("/prefs" + " ")[6] == ' ';
  }

  /** The line a command word, a sub-command and some words are joined into. */
  lemma JoinHead(head: string, sub: string, words: seq<string>, pieces: seq<string>)
    requires words != []
    requires pieces == [head, sub] + words
    ensures Join(pieces) == head + " " + sub + " " + Join(words)
    ensures StartsWith(Join(pieces), head)
  {
    assert pieces[1..] == [sub] + words && pieces[0] == head;
    JoinCons(sub, words);
    JoinCons(head, [sub] + words);
    assert pieces == [head] + ([sub] + words);
    assert Join(pieces)[..|head|] == head;
  }

  lemma ProjectToken()
    ensures Token("/project")
  {
    var p := "/project";
    assert !IsSpace(p[0]) && !IsSpace(p[1]) && !IsSpace(p[2]) && !IsSpace(p[3]);
    assert !IsSpace(p[4]) && !IsSpace(p[5]) && !IsSpace(p[6]) && !IsSpace(p[7]);
  }

  lemma CreateToken()
    ensures Token("create")
  {
    var c := "create";
    assert !IsSpace(c[0]) && !IsSpace(c[1]) && !IsSpace(c[2]);
    assert !IsSpace(c[3]) && !IsSpace(c[4]) && !IsSpace(c[5]);
  }

  /** `/project create <name>` creates the project named by the words as
      typed, under their normalised identifier. */
  lemma ParseCreate(words: seq<string>)
    requires words != [] && forall k :: 0 <= k < |words| ==> Token(words[k])
    ensures Parse("/project create " + Join(words)) == Create(Join(words), Normalize(Join(words)))
  {
    CreateToken();
    ProjectCommand("create", words);
    CreatePrefix(Join(words));
    CreatePieces(words);
  }

  lemma CreatePrefix(j: string)
    ensures "/project " + "create" + " " + j == "/project create " + j
  {
    assert "/project " + "create" + " " == "/project create ";
  }

  lemma CreatePieces(words: seq<string>)
    requires words != [] && forall k :: 0 <= k < |words| ==> Token(words[k])
    ensures ParseProject(["/project", "create"] + words) == Create(Join(words), Normalize(Join(words)))
  {
    var pieces := ["/project", "create"] + words;
    assert |pieces| >= 3 && pieces[1] == "create" && pieces[2..] == words;
    JoinStrip(words);
  }

  /** `/project select <name>` switches to the normalised identifier of the
      words. */
  lemma ParseSelect(words: seq<string>)
    requires words != [] && forall k :: 0 <= k < |words| ==> Token(words[k])
    ensures Parse("/project select " + Join(words)) == Select(Normalize(Join(words)))
  {
    SelectToken();
    ProjectCommand("select", words);
    SelectPrefix(Join(words));
    SelectPieces(words);
  }

  lemma SelectPrefix(j: string)
    ensures "/project " + "select" + " " + j == "/project select " + j
  {
    assert "/project " + "select" + " " == "/project select ";
  }

  lemma SelectPieces(words: seq<string>)
    requires words != [] && forall k :: 0 <= k < |words| ==> Token(words[k])
    ensures ParseProject(["/project", "select"] + words) == Select(Normalize(Join(words)))
  {
    var pieces := ["/project", "select"] + words;
    assert |pieces| >= 3 && pieces[1] == "select" && pieces[2..] == words;
    JoinStrip(words);
  }

  /** `/project delete <id>` acts on the normalised identifier. */
  lemma ParseDelete(w: string)
    requires Token(w)
    ensures Parse("/project delete " + w) == Delete(Normalize(w))
  {
    DeleteToken();
    ProjectCommand("delete", [w]);
    DeletePrefix(w);
    SinglePieces("delete", w);
  }

  lemma DeletePrefix(j: string)
    ensures "/project " + "delete" + " " + Join([j]) == "/project delete " + j
  {
    assert "/project " + "delete" + " " == "/project delete ";
  }

  /** `/project archive <id>` acts on the normalised identifier. */
  lemma ParseArchive(w: string)
    requires Token(w)
    ensures Parse("/project archive " + w) == Archive(Normalize(w))
  {
    ArchiveToken();
    ProjectCommand("archive", [w]);
    ArchivePrefix(w);
    SinglePieces("archive", w);
  }

  lemma ArchivePrefix(j: string)
    ensures "/project " + "archive" + " " + Join([j]) == "/project archive " + j
  {
    assert "/project " + "archive" + " " == "/project archive ";
  }

  lemma SinglePieces(sub: string, w: string)
    requires Token(w)
    ensures |["/project", sub] + [w]| == 3 && (["/project", sub] + [w])[1] == sub &&
            Strip((["/project", sub] + [w])[2]) == w
  {
    StripKeeps(w);
  }

  lemma SelectToken()
    ensures Token("select")
  {
    var c := "select";
    assert !IsSpace(c[0]) && !IsSpace(c[1]) && !IsSpace(c[2]);
    assert !IsSpace(c[3]) && !IsSpace(c[4]) && !IsSpace(c[5]);
  }

  lemma DeleteToken()
    ensures Token("delete")
  {
    var c := "delete";
    assert !IsSpace(c[0]) && !IsSpace(c[1]) && !IsSpace(c[2]);
    assert !IsSpace(c[3]) && !IsSpace(c[4]) && !IsSpace(c[5]);
  }

  lemma ArchiveToken()
    ensures Token("archive")
  {
    var c := "archive";
    assert !IsSpace(c[0]) && !IsSpace(c[1]) && !IsSpace(c[2]) && !IsSpace(c[3]);
    assert !IsSpace(c[4]) && !IsSpace(c[5]) && !IsSpace(c[6]);
  }

  lemma PrefsTokens()
    ensures Token("/prefs") && Token("set")
  {
    var p, t := "/prefs", "set";
    assert !IsSpace(p[0]) && !IsSpace(p[1]) && !IsSpace(p[2]);
    assert !IsSpace(p[3]) && !IsSpace(p[4]) && !IsSpace(p[5]);
    assert !IsSpace(t[0]) && !IsSpace(t[1]) && !IsSpace(t[2]);
  }

  /** A line that starts with `/prefs` takes the `/prefs` branch. */
  lemma PrefsLine(line: string)
    requires StartsWith(line, "/prefs")
    ensures Parse(line) == ParsePrefs(Split(Strip(line)))
  {
    PrefsLower();
    LowerStartsWith(line, "/prefs");
    PrefsNotQuit(Lower(line));
  }

  lemma PrefsNotQuit(lowered: string)
    requires StartsWith(lowered, "/prefs")
    ensures !QuitWord(lowered)
  {
    assert |lowered| >= 6;
  }

  lemma PrefsLower()
    ensures IsLower("/prefs")
  {
    var p := "/prefs";
    assert p[0] == '/' && p[1] == 'p' && p[2] == 'r' && p[3] == 'e' && p[4] == 'f' && p[5] == 's';
  }

  /** `/prefs set <key> <value>` sets that key to that value (when the key
      is one of the preferences); any other number of words is a usage
      error. */
  lemma ParsePrefsSet(key: string, value: string)
    requires Token(key) && Token(value)
    ensures Parse("/prefs set " + key + " " + value) == PrefsSet(key, value)
  {
    PrefsTokens();
    PrefsCommand("set", [key, value]);
    SetPrefix(key, value);
    assert (["/prefs", "set"] + [key, value])[1] == "set";
  }

  lemma SetPrefix(key: string, value: string)
    ensures "/prefs " + "set" + " " + Join([key, value]) == "/prefs set " + key + " " + value
  {
    assert Join([key, value]) == key + " " + value;
    assert "/prefs " + "set" + " " == "/prefs set ";
  }

  /** `/prefs <sub> <words>` is read as the pieces `/prefs`, `sub` and the
      words, and goes to the `/prefs` branch. */
  lemma PrefsCommand(sub: string, words: seq<string>)
    requires Token(sub) && Token("/prefs") && words != [] && forall k :: 0 <= k < |words| ==> Token(words[k])
    ensures Parse("/prefs " + sub + " " + Join(words)) == ParsePrefs(["/prefs", sub] + words)
  {
    var pieces := ["/prefs", sub] + words;
    PrefsPieces(sub, words, pieces);
    SplitLine(pieces);
    PrefsLine(Join(pieces));
  }

  lemma PrefsPieces(sub: string, words: seq<string>, pieces: seq<string>)
    requires Token(sub) && Token("/prefs") && words != [] && forall k :: 0 <= k < |words| ==> Token(words[k])
    requires pieces == ["/prefs", sub] + words
    ensures Join(pieces) == "/prefs " + sub + " " + Join(words)
    ensures StartsWith(Join(pieces), "/prefs")
    ensures forall k :: 0 <= k < |pieces| ==> Token(pieces[k])
  {
    JoinHead("/prefs", sub, words, pieces);
    HeadSpace();
    assert forall k :: 0 <= k < |pieces| ==> Token(pieces[k]) by {
      forall k | 0 <= k < |pieces| ensures Token(pieces[k]) {
        if k >= 2 { assert pieces[k] == words[k - 2]; }
      }
    }
  }

  /** Joined pieces need no stripping. */
  lemma JoinStrip(words: seq<string>)
    requires words != [] && forall k :: 0 <= k < |words| ==> Token(words[k])
    ensures Strip(Join(words)) == Join(words)
  {
    JoinEnds(words);
    StripKeeps(Join(words));
  }

  // ----- the session -------------------------------------------------------

  /** What the loop prints in answer to a line. */
  datatype Feedback =
    | Goodbye
    | ShowPreferences(preferences: map<string, string>)
    | PreferenceSet(key: string, value: string)
    | UnknownPreference(key: string)
    | PrefsHelp
    | Created(name: string)
    | AlreadyExists(name: string)
    | Switched(name: string)
    | ProjectNotFound(pid: string)
    | CannotDeleteDefault
    | Deleted(pid: string)
    | CannotArchiveDefault
    | ArchivedProject(pid: string)
    | Listing(projects: map<string, string>, archived: set<string>)
    | ProjectHelp
    | NotHandled

  const DEFAULT_PROJECT := "default"

  /** The local variables `projects`, `current_project`, `archived_projects`
      and `preferences` of `main()`, as one value. */
  datatype State = State(projects: map<string, string>, current: string, archived: set<string>,
                         preferences: map<string, string>)

  /** The values the loop starts from. */
  const Initial := State(map[DEFAULT_PROJECT := "Default"], DEFAULT_PROJECT, {},
                         map["language" := "en", "tone" := "friendly"])

  /** The default project exists and the current project is one of the
      projects. */
  predicate Consistent(st: State) {
    DEFAULT_PROJECT in st.projects && st.current in st.projects
  }

  /** What the branch for `cmd` does to the state, and what it prints. */
  function Transition(st: State, cmd: Command): (State, Feedback) {
    match cmd
    case Quit => (st, Goodbye)
    case PrefsShow => (st, ShowPreferences(st.preferences))
    case PrefsSet(k, v) =>
      if k in st.preferences then (st.(preferences := st.preferences[k := v]), PreferenceSet(k, v))
      else (st, UnknownPreference(k))
    case PrefsUsage => (st, PrefsHelp)
    case Create(name, pid) =>
      if pid in st.projects then (st, AlreadyExists(name))
      else (st.(projects := st.projects[pid := name]), Created(name))
    case Select(pid) =>
      if pid in st.projects then (st.(current := pid), Switched(st.projects[pid]))
      else (st, ProjectNotFound(pid))
    case Delete(pid) =>
      if pid == DEFAULT_PROJECT then (st, CannotDeleteDefault)
      else if pid in st.projects then
        (st.(projects := st.projects - {pid}, current := if st.current == pid then DEFAULT_PROJECT else st.current),
         Deleted(pid))
      else (st, ProjectNotFound(pid))
    case Archive(pid) =>
      if pid == DEFAULT_PROJECT then (st, CannotArchiveDefault)
      else if pid in st.projects then
        (st.(projects := st.projects - {pid}, archived := st.archived + {pid},
             current := if st.current == pid then DEFAULT_PROJECT else st.current),
         ArchivedProject(pid))
      else (st, ProjectNotFound(pid))
    case ListProjects => (st, Listing(st.projects, st.archived))
    case ProjectUsage => (st, ProjectHelp)
    case Other => (st, NotHandled)
  }

  // ----- properties of a step ------------------------------------------------

  /** Every step keeps the state consistent: the default project is never
      removed and the current project never dangles. */
  lemma TransitionConsistent(st: State, cmd: Command)
    requires Consistent(st)
    ensures Consistent(Transition(st, cmd).0)
  {
  }

  /** `create` adds exactly the new identifier with its display name, leaves
      a taken identifier alone, and never switches project. */
  lemma CreateAddsOnly(st: State, name: string, pid: string)
    ensures var next := Transition(st, Create(name, pid)).0;
            next.current == st.current && next.archived == st.archived && next.preferences == st.preferences &&
            (pid in st.projects ==> next.projects == st.projects) &&
            (pid !in st.projects ==> pid in next.projects && next.projects[pid] == name &&
                                     forall q :: q != pid ==> (q in next.projects <==> q in st.projects) &&
                                                              (q in st.projects ==> next.projects[q] == st.projects[q]))
  {
  }

  /** Only `select` changes the current project to anything but the default,
      and only to an existing project. */
  lemma CurrentMovesOnlyToProjects(st: State, cmd: Command)
    requires DEFAULT_PROJECT in st.projects
    requires Transition(st, cmd).0.current != st.current
    ensures Transition(st, cmd).0.current in st.projects
    ensures cmd.Select? || Transition(st, cmd).0.current == DEFAULT_PROJECT
  {
  }

  /** Deleting or archiving the current project falls back to the default;
      archiving moves the identifier from the projects to the archived set. */
  lemma RemoveCurrent(st: State, pid: string, archive: bool)
    requires pid != DEFAULT_PROJECT && pid in st.projects && st.current == pid
    ensures var next := Transition(st, if archive then Archive(pid) else Delete(pid)).0;
            next.current == DEFAULT_PROJECT && pid !in next.projects &&
            (archive ==> pid in next.archived) && (!archive ==> next.archived == st.archived)
  {
  }

  /** The default project survives every command. */
  lemma DefaultNeverRemoved(st: State, cmd: Command)
    requires DEFAULT_PROJECT in st.projects
    ensures DEFAULT_PROJECT in Transition(st, cmd).0.projects
  {
  }

  /** The preference keys never change; `/prefs set` changes the value of an
      existing key only, and nothing else changes preferences. */
  lemma PreferencesKeepKeys(st: State, cmd: Command)
    ensures var next := Transition(st, cmd).0;
            (forall k :: k in next.preferences <==> k in st.preferences) &&
            (!cmd.PrefsSet? ==> next.preferences == st.preferences) &&
            (cmd.PrefsSet? ==> forall k :: k in st.preferences && k != cmd.key ==> next.preferences[k] == st.preferences[k])
  {
  }

  /** `/prefs set` on an unknown key, or with the wrong number of words,
      changes no state at all. */
  lemma PrefsRefusalsChangeNothing(st: State, cmd: Command)
    requires cmd.PrefsUsage? || (cmd.PrefsSet? && cmd.key !in st.preferences)
    ensures Transition(st, cmd).0 == st
  {
  }

  /** The commands of a run of lines, one per line. */
  function Commands(lines: seq<string>): (cmds: seq<Command>)
    ensures |cmds| == |lines| && forall i :: 0 <= i < |lines| ==> cmds[i] == Parse(lines[i])
  {
    seq(|lines|, i requires 0 <= i < |lines| => Parse(lines[i]))
  }

  /** The loop over a run of commands: the state the steps reach and the
      feedback of each, stopping after the command that quits. */
  function RunFrom(st: State, cmds: seq<Command>): (State, seq<Feedback>)
    decreases |cmds|
  {
    if cmds == [] then (st, [])
    else
      var step := Transition(st, cmds[0]);
      if step.1.Goodbye? then (step.0, [Goodbye])
      else
        var rest := RunFrom(step.0, cmds[1..]);
        (rest.0, [step.1] + rest.1)
  }

  lemma RunFromUnfold(st: State, cmds: seq<Command>, step: (State, Feedback))
    requires cmds != [] && step == Transition(st, cmds[0])
    ensures step.1.Goodbye? ==> RunFrom(st, cmds) == (step.0, [Goodbye])
    ensures !step.1.Goodbye? ==> RunFrom(st, cmds) == (RunFrom(step.0, cmds[1..]).0, [step.1] + RunFrom(step.0, cmds[1..]).1)
  {
  }

  lemma RunBegin(st: State, cmds: seq<Command>)
    ensures RunFrom(st, cmds) == (RunFrom(st, cmds[0..]).0, [] + RunFrom(st, cmds[0..]).1)
  {
    assert cmds[0..] == cmds;
    assert [] + RunFrom(st, cmds).1 == RunFrom(st, cmds).1;
  }

  /** One more pass of the loop: the command at position `i` moves from the
      commands still to run to the feedback already printed. */
  lemma RunAdvance(start: State, cmds: seq<Command>, i: nat, before: State, after: State, fb: Feedback,
                   out: seq<Feedback>)
    requires i < |cmds|
    requires RunFrom(start, cmds) == (RunFrom(before, cmds[i..]).0, out + RunFrom(before, cmds[i..]).1)
    requires (after, fb) == Transition(before, cmds[i])
    ensures fb.Goodbye? ==> RunFrom(start, cmds) == (after, out + [fb])
    ensures !fb.Goodbye? ==>
              RunFrom(start, cmds) == (RunFrom(after, cmds[i + 1..]).0, (out + [fb]) + RunFrom(after, cmds[i + 1..]).1)
  {
    assert cmds[i..][0] == cmds[i] && cmds[i..][1..] == cmds[i + 1..];
    RunFromUnfold(before, cmds[i..], (after, fb));
    if !fb.Goodbye? {
      var rest := RunFrom(after, cmds[i + 1..]);
      assert out + ([fb] + rest.1) == (out + [fb]) + rest.1;
    }
  }

  lemma RunEnd(start: State, cmds: seq<Command>, st: State, out: seq<Feedback>)
    requires RunFrom(start, cmds) == (RunFrom(st, cmds[|cmds|..]).0, out + RunFrom(st, cmds[|cmds|..]).1)
    ensures RunFrom(start, cmds) == (st, out)
  {
    assert cmds[|cmds|..] == [] && out + [] == out;
  }

  /** However many commands are read, the state stays consistent, and only
      the last feedback can be the goodbye. */
  lemma {:induction false} RunConsistent(st: State, cmds: seq<Command>)
    requires Consistent(st)
    ensures Consistent(RunFrom(st, cmds).0)
    ensures |RunFrom(st, cmds).1| <= |cmds|
    ensures var out := RunFrom(st, cmds).1; forall k :: 0 <= k < |out| - 1 ==> !out[k].Goodbye?
    decreases |cmds|
  {
    if cmds != [] {
      TransitionConsistent(st, cmds[0]);
      RunConsistent(Transition(st, cmds[0]).0, cmds[1..]);
    }
  }

  /** The mutable state of `main()`. */
  class Session {
    var projects: map<string, string>
    var current: string
    var archived: set<string>
    var preferences: map<string, string>

    function Snapshot(): State
      reads this
    {
      State(projects, current, archived, preferences)
    }

    constructor ()
      ensures Snapshot() == Initial && Consistent(Snapshot())
    {
      projects := map[DEFAULT_PROJECT := "Default"];
      current := DEFAULT_PROJECT;
      archived := {};
      preferences := map["language" := "en", "tone" := "friendly"];
    }

    /** One pass of the loop body on `line`. */
    method Step(line: string) returns (fb: Feedback)
      modifies this
      ensures (Snapshot(), fb) == Transition(old(Snapshot()), Parse(line))
    {
      var cmd := Parse(line);
      match cmd
      case Quit =>
        fb := Goodbye;
      case PrefsShow =>
        fb := ShowPreferences(preferences);
      case PrefsSet(k, v) =>
        if k in preferences {
          preferences := preferences[k := v];
          fb := PreferenceSet(k, v);
        } else {
          fb := UnknownPreference(k);
        }
      case PrefsUsage =>
        fb := PrefsHelp;
      case Create(name, pid) =>
        if pid in projects {
          fb := AlreadyExists(name);
        } else {
          projects := projects[pid := name];
          fb := Created(name);
        }
      case Select(pid) =>
        if pid in projects {
          current := pid;
          fb := Switched(projects[pid]);
        } else {
          fb := ProjectNotFound(pid);
        }
      case Delete(pid) =>
        if pid == DEFAULT_PROJECT {
          fb := CannotDeleteDefault;
        } else if pid in projects {
          projects := projects - {pid};
          if current == pid {
            current := DEFAULT_PROJECT;
          }
          fb := Deleted(pid);
        } else {
          fb := ProjectNotFound(pid);
        }
      case Archive(pid) =>
        if pid == DEFAULT_PROJECT {
          fb := CannotArchiveDefault;
        } else if pid in projects {
          archived := archived + {pid};
          projects := projects - {pid};
          if current == pid {
            current := DEFAULT_PROJECT;
          }
          fb := ArchivedProject(pid);
        } else {
          fb := ProjectNotFound(pid);
        }
      case ListProjects =>
        fb := Listing(projects, archived);
      case ProjectUsage =>
        fb := ProjectHelp;
      case Other =>
        fb := NotHandled;
    }

    /** The `while True` loop over the lines typed: stops after the line that
        quits, or when the lines run out. */
    method Run(lines: seq<string>) returns (out: seq<Feedback>)
      modifies this
      ensures (Snapshot(), out) == RunFrom(old(Snapshot()), Commands(lines))
    {
      ghost var cmds := Commands(lines);
      ghost var start := Snapshot();
      out := [];
      var i := 0;
      RunBegin(start, cmds);
      while i < |lines|
        invariant 0 <= i <= |lines|
        invariant RunFrom(start, cmds) == (RunFrom(Snapshot(), cmds[i..]).0, out + RunFrom(Snapshot(), cmds[i..]).1)
      {
        ghost var before := Snapshot();
        var fb := Step(lines[i]);
        RunAdvance(start, cmds, i, before, Snapshot(), fb, out);
        out := out + [fb];
        if fb.Goodbye? {
          return;
        }
        i := i + 1;
      }
      RunEnd(start, cmds, Snapshot(), out);
    }
  }
}
