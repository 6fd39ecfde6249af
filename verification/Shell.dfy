/** QEMU's invocation: run as a command, and printed as a shell script that does the same. How words are
    quoted and read, and the variables a shell keeps for itself, are parameters. */
module Shell {
  import opened Options

  type Env = map<string, string>

  datatype Invocation = Invocation(
    program: string, args: seq<string>, env: seq<(string, string)>, unset: seq<string>)

  /** `quote` writes a word; `word` reads one from the front of a text, and gives the rest. A shell `keeps`
      some variables for itself: set to a value, one has what `gives` says, or the shell stops, as it does
      when the variable is read-only. */
  datatype Dialect = Dialect(
    quote: string -> string, word: string -> Option<(string, string)>,
    keeps: set<string>, gives: (string, string) -> Option<string>)

  /** A word ends at a blank or a line's end. */
  predicate Ends(t: string) { t == "" || t[0] == ' ' || t[0] == '\n' }

  ghost predicate Faithful(q: Dialect) {
    && (forall s, t :: Ends(t) ==> q.word(q.quote(s) + t) == Some((s, t)))
    && (forall s :: q.quote(s) != "" && q.quote(s)[0] !in " \\\n")
  }

  datatype Outcome = Outcome(program: string, args: seq<string>, env: Env)

  // ---- the command

  function Unset(env: Env, names: seq<string>): Env {
    if names == [] then env else Unset(env - {names[0]}, names[1..])
  }

  function Set(env: Env, values: seq<(string, string)>): Env
    decreases |values|
  {
    if values == [] then env else Set(env[values[0].0 := values[0].1], values[1..])
  }

  function Command(i: Invocation, env: Env): Outcome {
    Outcome(i.program, i.args, Set(Unset(env, i.unset), i.env))
  }

  // ---- the script

  function Comments(lines: seq<string>): string {
    if lines == [] then "" else "# " + lines[0] + "\n" + Comments(lines[1..])
  }

  function Unsets(names: seq<string>): string {
    if names == [] then "" else "unset " + names[0] + "\n" + Unsets(names[1..])
  }

  function Exports(q: Dialect, values: seq<(string, string)>): string {
    if values == [] then ""
    else "export " + values[0].0 + "=" + q.quote(values[0].1) + "\n" + Exports(q, values[1..])
  }

  predicate IsOption(a: string) { a != "" && a[0] == '-' }

  const NEXT_LINE := " \\\n  "

  /** An option and its value share a line. */
  function ArgText(q: Dialect, args: seq<string>): string {
    if args == [] then ""
    else if |args| > 1 && IsOption(args[0]) && !IsOption(args[1]) then
      NEXT_LINE + q.quote(args[0]) + (" " + q.quote(args[1]) + ArgText(q, args[2..]))
    else NEXT_LINE + q.quote(args[0]) + ArgText(q, args[1..])
  }

  /** An option takes the argument after it on its line, unless that is an option too; any other argument has a
      line of its own. */
  lemma LinesAre(q: Dialect, o: string, v: string, rest: seq<string>)
    ensures o != "" && o[0] == '-' && (v == "" || v[0] != '-') ==>
              ArgText(q, [o, v] + rest) == " \\\n  " + q.quote(o) + (" " + q.quote(v) + ArgText(q, rest))
    ensures o != "" && o[0] == '-' && v != "" && v[0] == '-' ==>
              ArgText(q, [o, v] + rest) == " \\\n  " + q.quote(o) + ArgText(q, [v] + rest)
    ensures o == "" || o[0] != '-' ==> ArgText(q, [o] + rest) == " \\\n  " + q.quote(o) + ArgText(q, rest)
    ensures ArgText(q, [o]) == " \\\n  " + q.quote(o)
  {
    assert ([o, v] + rest)[1..] == [v] + rest && ([o, v] + rest)[2..] == rest;
    assert ([o] + rest)[1..] == rest && [o][1..] == [];
    assert ArgText(q, []) == "";
  }

  function Script(q: Dialect, i: Invocation, comment: seq<string>): string {
    "#!/bin/sh\n" + (Comments(comment) + (Unsets(i.unset) + (Exports(q, i.env)
    + ("exec " + q.quote(i.program) + (ArgText(q, i.args) + "\n")))))
  }

  // ---- a shell

  predicate Starts(t: string, p: string) { p <= t }

  predicate NameChar(c: char) { 'a' <= c <= 'z' || 'A' <= c <= 'Z' || '0' <= c <= '9' || c == '_' }

  predicate Digit(c: char) { '0' <= c <= '9' }

  /** A variable's name, as POSIX has it: not empty, and no digit first. */
  predicate Name(k: string) {
    k != "" && !Digit(k[0]) && forall i :: 0 <= i < |k| ==> NameChar(k[i])
  }

  /** The letters, digits and the underscore by their ends, and what stands beside them. */
  lemma NamesAre()
    ensures Name("a") && Name("z") && Name("A") && Name("Z") && Name("_") && Name("_0") && Name("_9") && Name("REIMS_VGPU_LOG")
    ensures !Name("") && !Name("0") && !Name("9") && !Name("0A") && !Name("A-") && !Name("A B") && !Name("A.B")
    ensures !NameChar('`') && !NameChar('{') && !NameChar('@') && !NameChar('[') && !NameChar('/') && !NameChar(':')
  {
    assert "A-"[1] == '-' && "A B"[1] == ' ' && "A.B"[1] == '.' && "0A"[0] == '0';
  }

  function NameEnd(t: string): (n: nat)
    ensures n <= |t| && (forall i :: 0 <= i < n ==> NameChar(t[i])) && (n < |t| ==> !NameChar(t[n]))
  {
    if t == "" || !NameChar(t[0]) then 0 else 1 + NameEnd(t[1..])
  }

  function AfterLine(t: string): (r: string)
    ensures |r| <= |t|
  {
    if t == "" then "" else if t[0] == '\n' then t[1..] else AfterLine(t[1..])
  }

  /** The words left on a command's line, which a backslash carries on to the next. */
  function Words(q: Dialect, t: string): Option<seq<string>>
    decreases |t|
  {
    if t == "\n" then Some([])
    else if !Starts(t, " ") then None
    else
      match q.word(if Starts(t, NEXT_LINE) then t[5..] else t[1..])
      case None => None
      case Some((w, rest)) =>
        if |rest| >= |t| then None
        else
          match Words(q, rest)
          case None => None
          case Some(ws) => Some([w] + ws)
  }

  /** What a variable holds after `v` is assigned to it. */
  function Given(q: Dialect, k: string, v: string): Option<string> {
    if k in q.keeps then q.gives(k, v) else Some(v)
  }

  /** What a script runs: comments, variables unset and exported, and the command that takes its place. */
  function Exec(q: Dialect, t: string, env: Env): Option<Outcome>
    decreases |t|
  {
    if t == "" then None
    else if t[0] == '#' then Exec(q, AfterLine(t[1..]), env)
    else if Starts(t, "unset ") then
      var r, n := t[6..], NameEnd(t[6..]);
      if n == 0 || n == |r| || Digit(r[0]) || r[n] != '\n' || r[..n] in q.keeps then None
      else Exec(q, r[n + 1..], env - {r[..n]})
    else if Starts(t, "export ") then
      var r, n := t[7..], NameEnd(t[7..]);
      if n == 0 || n == |r| || Digit(r[0]) || r[n] != '=' then None
      else
        match q.word(r[n + 1..])
        case None => None
        case Some((v, rest)) =>
          var w := Given(q, r[..n], v);
          if rest == "" || |rest| > |r| || rest[0] != '\n' || w.None? then None
          else Exec(q, rest[1..], env[r[..n] := w.value])
    else if Starts(t, "exec ") then
      match q.word(t[5..])
      case None => None
      case Some((program, rest)) =>
        match Words(q, rest)
        case None => None
        case Some(args) => Some(Outcome(program, args, env))
    else None
  }

  // ---- they agree

  lemma ArgEnds(q: Dialect, args: seq<string>)
    ensures Ends(ArgText(q, args) + "\n")
  {
  }

  lemma OneWord(q: Dialect, w: string, sep: string, t: string)
    requires Faithful(q) && Ends(t) && (sep == " " || sep == NEXT_LINE)
    ensures Words(q, sep + q.quote(w) + t) == if Words(q, t).None? then None else Some([w] + Words(q, t).value)
  {
    hide Words, Faithful;
    var all := sep + q.quote(w) + t;
    assert q.word(q.quote(w) + t) == Some((w, t)) && q.quote(w) != "" && q.quote(w)[0] !in " \\\n" by {
      QuoteReads(q, w, t);
    }
    assert all[|sep|..] == q.quote(w) + t;
    assert all[..|sep|] == sep;
    assert all[0] == ' ' && all[..1] == " ";
    if sep == " " {
      assert all[1] == q.quote(w)[0];
      assert all[1] != '\\';
      assert |all| < 5 || all[..5][1] == all[1];
      assert !Starts(all, NEXT_LINE);
    }
    WordsStep(q, all);
  }

  lemma QuoteReads(q: Dialect, w: string, t: string)
    requires Faithful(q) && Ends(t)
    ensures q.word(q.quote(w) + t) == Some((w, t)) && q.quote(w) != "" && q.quote(w)[0] !in " \\\n"
  {
  }

  lemma WordsStep(q: Dialect, t: string)
    requires t != "\n" && Starts(t, " ")
    ensures var r := q.word(if Starts(t, NEXT_LINE) then t[5..] else t[1..]);
            Words(q, t) ==
            if r.None? || |r.value.1| >= |t| || Words(q, r.value.1).None? then None
            else Some([r.value.0] + Words(q, r.value.1).value)
  {
  }

  /** The words are the arguments in order, whatever shares a line. */
  lemma {:induction false} ArgsRead(q: Dialect, args: seq<string>)
    requires Faithful(q)
    ensures Words(q, ArgText(q, args) + "\n") == Some(args)
  {
    hide Words, Faithful, Starts;
    if args == [] {
      assert ArgText(q, args) + "\n" == "\n";
      assert Words(q, "\n") == Some([]) by {
        NoWords(q);
      }
    } else if |args| > 1 && IsOption(args[0]) && !IsOption(args[1]) {
      var t := ArgText(q, args[2..]) + "\n";
      ArgsRead(q, args[2..]);
      ArgEnds(q, args[2..]);
      OneWord(q, args[1], " ", t);
      var u := " " + q.quote(args[1]) + t;
      OneWord(q, args[0], NEXT_LINE, u);
      assert ArgText(q, args) + "\n" == NEXT_LINE + q.quote(args[0]) + u;
      assert [args[0]] + ([args[1]] + args[2..]) == args;
    } else {
      var t := ArgText(q, args[1..]) + "\n";
      ArgsRead(q, args[1..]);
      ArgEnds(q, args[1..]);
      OneWord(q, args[0], NEXT_LINE, t);
      assert ArgText(q, args) + "\n" == NEXT_LINE + q.quote(args[0]) + t;
      assert [args[0]] + args[1..] == args;
    }
  }

  lemma NoWords(q: Dialect)
    ensures Words(q, "\n") == Some([])
  {
  }

  lemma {:induction false} LineSkipped(line: string, t: string)
    requires '\n' !in line
    ensures AfterLine(line + "\n" + t) == t
  {
    var all := line + "\n" + t;
    if line == "" {
      assert all[1..] == t;
    } else {
      assert all[1..] == line[1..] + "\n" + t;
      LineSkipped(line[1..], t);
    }
  }

  lemma HashSkipped(q: Dialect, line: string, rest: string, env: Env)
    requires '\n' !in line
    ensures Exec(q, "#" + (line + "\n" + rest), env) == Exec(q, rest, env)
  {
    var all := "#" + (line + "\n" + rest);
    assert all[1..] == line + "\n" + rest && all[0] == '#';
    LineSkipped(line, rest);
    HashStep(q, all, env);
  }

  lemma HashStep(q: Dialect, t: string, env: Env)
    requires t != "" && t[0] == '#'
    ensures Exec(q, t, env) == Exec(q, AfterLine(t[1..]), env)
  {
    hide AfterLine;
  }

  lemma {:induction false} CommentsSkipped(q: Dialect, lines: seq<string>, t: string, env: Env)
    requires forall i :: 0 <= i < |lines| ==> '\n' !in lines[i]
    ensures Exec(q, Comments(lines) + t, env) == Exec(q, t, env)
  {
    hide Exec;
    if lines == [] {
      assert Comments(lines) + t == t;
    } else {
      var rest := Comments(lines[1..]) + t;
      assert Comments(lines) + t == "#" + ((" " + lines[0]) + "\n" + rest);
      HashSkipped(q, " " + lines[0], rest, env);
      CommentsSkipped(q, lines[1..], t, env);
    }
  }

  lemma {:induction false} NameRead(k: string, t: string)
    requires forall i :: 0 <= i < |k| ==> NameChar(k[i])
    requires t != "" && !NameChar(t[0])
    ensures NameEnd(k + t) == |k| && (k + t)[..|k|] == k && (k + t)[|k|..] == t
  {
    if k == "" {
      assert k + t == t;
    } else {
      assert (k + t)[1..] == k[1..] + t;
      NameRead(k[1..], t);
    }
  }

  lemma OneUnset(q: Dialect, k: string, t: string, env: Env)
    requires Name(k) && k !in q.keeps
    ensures Exec(q, "unset " + k + "\n" + t, env) == Exec(q, t, env - {k})
  {
    hide NameEnd, Name;
    var all, rest := "unset " + k + "\n" + t, "\n" + t;
    assert all[..6] == "unset " && all[6..] == k + rest && all[0] == 'u';
    NameIs(k);
    NameRead(k, rest);
    assert rest[1..] == t && all[6..][|k| + 1..] == t;
    UnsetStep(q, all, env);
  }

  lemma NameIs(k: string)
    requires Name(k)
    ensures k != "" && !Digit(k[0]) && forall i :: 0 <= i < |k| ==> NameChar(k[i])
  {
  }

  lemma UnsetStep(q: Dialect, t: string, env: Env)
    requires t != "" && t[0] != '#' && Starts(t, "unset ")
    ensures var r, n := t[6..], NameEnd(t[6..]);
            Exec(q, t, env) == if n == 0 || n == |r| || Digit(r[0]) || r[n] != '\n' || r[..n] in q.keeps then None
                               else Exec(q, r[n + 1..], env - {r[..n]})
  {
    hide NameEnd;
  }

  lemma ExportStep(q: Dialect, t: string, env: Env)
    requires t != "" && t[0] == 'e' && Starts(t, "export ")
    requires var r, n := t[7..], NameEnd(t[7..]);
             && 0 < n < |r| && !Digit(r[0]) && r[n] == '=' && q.word(r[n + 1..]).Some?
             && var (v, rest) := q.word(r[n + 1..]).value; rest != "" && |rest| <= |r| && rest[0] == '\n'
    ensures var r, n := t[7..], NameEnd(t[7..]);
            var (v, rest) := q.word(r[n + 1..]).value;
            var w := Given(q, r[..n], v);
            Exec(q, t, env) == if w.None? then None else Exec(q, rest[1..], env[r[..n] := w.value])
  {
    hide NameEnd, Given;
    assert t[..6] == t[..7][..6];
    assert !Starts(t, "unset ") by {
      assert t[..6][0] == 'e';
    }
  }

  lemma ExportText(k: string, word: string, t: string)
    ensures "export " + k + "=" + word + "\n" + t == "export " + (k + ("=" + (word + ("\n" + t))))
  {
  }

  lemma AfterPrefix(p: string, t: string)
    ensures (p + t)[..|p|] == p && (p + t)[|p|..] == t
  {
  }

  lemma OneExport(q: Dialect, k: string, v: string, t: string, env: Env)
    requires Faithful(q) && Name(k)
    ensures var w := Given(q, k, v);
            Exec(q, "export " + k + "=" + q.quote(v) + "\n" + t, env) ==
            if w.None? then None else Exec(q, t, env[k := w.value])
  {
    hide NameEnd, Name, Exec, Faithful, Given;
    var rest := "\n" + t;
    var value := "=" + (q.quote(v) + rest);
    ExportText(k, q.quote(v), t);
    AfterPrefix("export ", k + value);
    AfterPrefix("=", q.quote(v) + rest);
    AfterPrefix("\n", t);
    NameIs(k);
    NameRead(k, value);
    QuoteReads(q, v, rest);
    assert (k + value)[|k| + 1..] == value[1..];
    ExportStep(q, "export " + (k + value), env);
  }

  /** Names a shell can unset, as all the printer unsets are. */
  predicate PrintersOwn(q: Dialect, unset: seq<string>) {
    forall k :: 0 <= k < |unset| ==> Name(unset[k]) && unset[k] !in q.keeps
  }

  lemma {:induction false} UnsetsRun(q: Dialect, names: seq<string>, t: string, env: Env)
    requires PrintersOwn(q, names)
    ensures Exec(q, Unsets(names) + t, env) == Exec(q, t, Unset(env, names))
  {
    hide Exec, Name;
    if names == [] {
      assert Unsets(names) + t == t;
    } else {
      var rest := Unsets(names[1..]) + t;
      assert Unsets(names) + t == "unset " + names[0] + "\n" + rest;
      OneUnset(q, names[0], rest, env);
      UnsetsRun(q, names[1..], t, env - {names[0]});
    }
  }

  /** What a shell makes of assignments in order. */
  function SetGiven(q: Dialect, env: Env, values: seq<(string, string)>): Option<Env>
    decreases |values|
  {
    if values == [] then Some(env)
    else
      var w := Given(q, values[0].0, values[0].1);
      if w.None? then None else SetGiven(q, env[values[0].0 := w.value], values[1..])
  }

  lemma {:induction false} ExportsRun(q: Dialect, values: seq<(string, string)>, t: string, env: Env)
    requires Faithful(q) && forall i :: 0 <= i < |values| ==> Name(values[i].0)
    ensures var e := SetGiven(q, env, values);
            Exec(q, Exports(q, values) + t, env) == if e.None? then None else Exec(q, t, e.value)
    decreases |values|
  {
    hide Exec, Name, Faithful, Given;
    if values == [] {
      assert Exports(q, values) + t == t;
    } else {
      var (k, v) := values[0];
      var rest := Exports(q, values[1..]) + t;
      assert Exports(q, values) + t == "export " + k + "=" + q.quote(v) + "\n" + rest;
      OneExport(q, k, v, rest, env);
      var w := Given(q, k, v);
      if w.Some? {
        ExportsRun(q, values[1..], t, env[k := w.value]);
      }
    }
  }

  /** No two values are of one variable. */
  ghost predicate Distinct(values: seq<(string, string)>) {
    forall i, j :: 0 <= i < j < |values| ==> values[i].0 != values[j].0
  }

  ghost predicate AllGiven(q: Dialect, values: seq<(string, string)>) {
    forall i :: 0 <= i < |values| ==> Given(q, values[i].0, values[i].1) == Some(values[i].1)
  }

  lemma {:induction false} SetGivenKeeps(q: Dialect, env: Env, values: seq<(string, string)>, k: string)
    requires k in env && forall i :: 0 <= i < |values| ==> values[i].0 != k
    ensures k in Set(env, values) && Set(env, values)[k] == env[k]
    ensures var e := SetGiven(q, env, values); e.Some? ==> k in e.value && e.value[k] == env[k]
    decreases |values|
  {
    hide Given;
    if values != [] {
      var w := Given(q, values[0].0, values[0].1);
      SetGivenKeeps(q, env[values[0].0 := values[0].1], values[1..], k);
      if w.Some? {
        SetGivenKeeps(q, env[values[0].0 := w.value], values[1..], k);
      }
    }
  }

  /** A shell leaves the variables as the command does exactly when it takes each value as it is. */
  lemma {:induction false} SetGivenIff(q: Dialect, env: Env, values: seq<(string, string)>)
    requires Distinct(values)
    ensures SetGiven(q, env, values) == Some(Set(env, values)) <==> AllGiven(q, values)
    decreases |values|
  {
    hide Given;
    if values != [] {
      var (k, v) := values[0];
      var w := Given(q, k, v);
      assert AllGiven(q, values) <==> w == Some(v) && AllGiven(q, values[1..]) by {
        assert forall i :: 0 < i < |values| ==> values[i] == values[1..][i - 1];
      }
      if w == Some(v) {
        SetGivenIff(q, env[k := v], values[1..]);
      } else if w.Some? {
        SetGivenKeeps(q, env[k := v], values[1..], k);
        SetGivenKeeps(q, env[k := w.value], values[1..], k);
      }
    }
  }

  lemma ExecRuns(q: Dialect, program: string, args: seq<string>, env: Env)
    requires Faithful(q)
    ensures Exec(q, "exec " + q.quote(program) + (ArgText(q, args) + "\n"), env) == Some(Outcome(program, args, env))
  {
    hide Words, ArgText, Faithful;
    var rest := ArgText(q, args) + "\n";
    var all := "exec " + q.quote(program) + rest;
    ArgsRead(q, args);
    ArgEnds(q, args);
    QuoteReads(q, program, rest);
    assert all[5..] == q.quote(program) + rest && all[..5] == "exec ";
    assert all[0] == 'e' && all[..5][2] == 'e' && all[2] == 'e';
    assert |all| < 6 || all[..6][0] == all[0];
    assert |all| < 7 || all[..7][2] == all[2];
    assert !Starts(all, "unset ") && !Starts(all, "export ");
  }

  lemma FirstLine(q: Dialect, t: string, env: Env)
    ensures Exec(q, "#!/bin/sh\n" + t, env) == Exec(q, t, env)
  {
    hide Exec;
    assert "#!/bin/sh\n" + t == "#" + ("!/bin/sh" + "\n" + t);
    HashSkipped(q, "!/bin/sh", t, env);
  }

  // ---- exactly when they agree

  lemma ExportRefused(q: Dialect, t: string, env: Env)
    requires t != "" && t[0] == 'e' && Starts(t, "export ")
    requires var r, n := t[7..], NameEnd(t[7..]); n == 0 || n == |r| || Digit(r[0]) || r[n] != '='
    ensures Exec(q, t, env) == None
  {
    hide NameEnd;
    assert t[..6] == t[..7][..6];
    assert !Starts(t, "unset ") by {
      assert t[..6][0] == 'e';
    }
  }

  /** Where the characters of a name stop, within a text it starts. */
  lemma {:induction false} NameEndsWithin(k: string, t: string)
    requires t != "" && !NameChar(t[0])
    ensures NameEnd(k + t) <= |k|
    ensures NameEnd(k + t) == |k| ==> forall i :: 0 <= i < |k| ==> NameChar(k[i])
  {
    if k == "" {
      assert k + t == t;
    } else {
      assert (k + t)[1..] == k[1..] + t;
      NameEndsWithin(k[1..], t);
    }
  }

  /** A shell stops at what is no name; the key is one `=` cannot be in. */
  lemma OneExportRefused(q: Dialect, k: string, v: string, t: string, env: Env)
    requires !Name(k) && '=' !in k
    ensures Exec(q, "export " + k + "=" + q.quote(v) + "\n" + t, env) == None
  {
    hide NameEnd, Exec;
    var value := "=" + q.quote(v) + "\n" + t;
    var all := "export " + k + "=" + q.quote(v) + "\n" + t;
    assert all[..7] == "export " && all[7..] == k + value && all[0] == 'e';
    NameEndsWithin(k, value);
    var n := NameEnd(k + value);
    if n < |k| {
      assert (k + value)[n] == k[n];
      assert k[n] in k;
    } else if k != "" {
      assert (k + value)[0] == k[0];
    }
    ExportRefused(q, all, env);
  }

  lemma {:induction false} ExportsRefused(q: Dialect, values: seq<(string, string)>, t: string, env: Env)
    requires Faithful(q) && forall i :: 0 <= i < |values| ==> '=' !in values[i].0
    requires exists i :: 0 <= i < |values| && !Name(values[i].0)
    ensures Exec(q, Exports(q, values) + t, env) == None
    decreases |values|
  {
    hide Exec, Name, Faithful, Given;
    var (k, v) := values[0];
    var rest := Exports(q, values[1..]) + t;
    assert Exports(q, values) + t == "export " + k + "=" + q.quote(v) + "\n" + rest;
    if Name(k) {
      OneExport(q, k, v, rest, env);
      var i :| 0 <= i < |values| && !Name(values[i].0);
      assert values[1..][i - 1] == values[i];
      if Given(q, k, v).Some? {
        ExportsRefused(q, values[1..], t, env[k := Given(q, k, v).value]);
      }
    } else {
      OneExportRefused(q, k, v, rest, env);
    }
  }

  /** A shell takes the variable as it is: it has a name, and the shell does not keep it or gives it just
      this value. */
  predicate Takes(q: Dialect, k: string, v: string) {
    Name(k) && (k in q.keeps ==> q.gives(k, v) == Some(v))
  }

  /** The script does what the command does, from any environment, exactly when the shell takes every
      variable set. The variables unset are the printer's own, and a key is what stands before the first `=`
      of what the user gave. */
  lemma ScriptIsCommandIff(q: Dialect, i: Invocation, comment: seq<string>, env: Env)
    requires Faithful(q) && Distinct(i.env) && PrintersOwn(q, i.unset)
    requires forall k :: 0 <= k < |comment| ==> '\n' !in comment[k]
    requires forall k :: 0 <= k < |i.env| ==> '=' !in i.env[k].0
    ensures Exec(q, Script(q, i, comment), env) == Some(Command(i, env))
       <==> forall k :: 0 <= k < |i.env| ==> Takes(q, i.env[k].0, i.env[k].1)
  {
    hide Exec, Faithful, Name, Comments, Unsets, Exports, ArgText, PrintersOwn;
    var from := Unset(env, i.unset);
    var run := "exec " + q.quote(i.program) + (ArgText(q, i.args) + "\n");
    var exports := Exports(q, i.env) + run;
    var unsets := Unsets(i.unset) + exports;
    var text := Comments(comment) + unsets;
    assert Script(q, i, comment) == "#!/bin/sh\n" + text;
    FirstLine(q, text, env);
    CommentsSkipped(q, comment, unsets, env);
    UnsetsRun(q, i.unset, exports, env);
    if forall k :: 0 <= k < |i.env| ==> Name(i.env[k].0) {
      ExportsRun(q, i.env, run, from);
      SetGivenIff(q, from, i.env);
      var e := SetGiven(q, from, i.env);
      if e.Some? {
        ExecRuns(q, i.program, i.args, e.value);
      }
      assert AllGiven(q, i.env) <==> forall k :: 0 <= k < |i.env| ==> Takes(q, i.env[k].0, i.env[k].1);
    } else {
      ExportsRefused(q, i.env, run, from);
    }
  }

  /** Names a shell keeps: bash stops at `PPID`, which is read-only, and gives `OPTIND` a number. */
  lemma KeptNamesDiffer(q: Dialect, i: Invocation, comment: seq<string>, env: Env)
    requires Faithful(q) && {"PPID", "OPTIND"} <= q.keeps
    requires q.gives("PPID", "1") == None && q.gives("OPTIND", "x") == Some("0")
    requires forall k :: 0 <= k < |comment| ==> '\n' !in comment[k]
    requires i.unset == [] && (i.env == [("PPID", "1")] || i.env == [("OPTIND", "x")])
    ensures Name(i.env[0].0) && Exec(q, Script(q, i, comment), env) != Some(Command(i, env))
  {
    hide Exec, Faithful, Script, Command;
    ScriptIsCommandIff(q, i, comment, env);
  }

  // ---- the methods

  method ShellScript(q: Dialect, i: Invocation, comment: seq<string>) returns (s: string)
    ensures s == Script(q, i, comment)
  {
    hide Comments, Unsets, Exports, ArgText;
    s := PrintComments(comment, "#!/bin/sh\n");
    s := PrintEnvironment(q, i, s);
    s := s + ("exec " + q.quote(i.program));
    s := PrintArguments(q, i.args, s);
    s := s + "\n";
    Assembled("#!/bin/sh\n", Comments(comment), Unsets(i.unset), Exports(q, i.env), "exec " + q.quote(i.program), ArgText(q, i.args), "\n");
  }

  lemma Assembled(a: string, b: string, c: string, d: string, e: string, f: string, g: string)
    ensures a + b + c + d + e + f + g == a + (b + (c + (d + (e + (f + g)))))
  {
  }

  method PrintComments(comment: seq<string>, before: string) returns (s: string)
    ensures s == before + Comments(comment)
  {
    s := before;
    var n := 0;
    while n < |comment|
      invariant 0 <= n <= |comment|
      invariant s + Comments(comment[n..]) == before + Comments(comment)
    {
      assert comment[n..][1..] == comment[n + 1..];
      Joined(s, "# " + comment[n] + "\n", Comments(comment[n + 1..]));
      s := s + ("# " + comment[n] + "\n");
      n := n + 1;
    }
  }

  lemma Joined(a: string, b: string, c: string)
    ensures a + (b + c) == a + b + c
  {
  }

  method PrintEnvironment(q: Dialect, i: Invocation, before: string) returns (s: string)
    ensures s == before + Unsets(i.unset) + Exports(q, i.env)
  {
    s := before;
    var n := 0;
    while n < |i.unset|
      invariant 0 <= n <= |i.unset|
      invariant s + Unsets(i.unset[n..]) == before + Unsets(i.unset)
    {
      assert i.unset[n..][1..] == i.unset[n + 1..];
      Joined(s, "unset " + i.unset[n] + "\n", Unsets(i.unset[n + 1..]));
      s := s + ("unset " + i.unset[n] + "\n");
      n := n + 1;
    }
    assert s == before + Unsets(i.unset);
    ghost var middle := s;
    n := 0;
    while n < |i.env|
      invariant 0 <= n <= |i.env|
      invariant s + Exports(q, i.env[n..]) == middle + Exports(q, i.env)
    {
      assert i.env[n..][1..] == i.env[n + 1..];
      var line := "export " + i.env[n].0 + "=" + q.quote(i.env[n].1) + "\n";
      Joined(s, line, Exports(q, i.env[n + 1..]));
      s := s + line;
      n := n + 1;
    }
  }

  method PrintArguments(q: Dialect, args: seq<string>, before: string) returns (s: string)
    ensures s == before + ArgText(q, args)
  {
    s := before;
    var i := 0;
    while i < |args|
      invariant 0 <= i <= |args|
      invariant s + ArgText(q, args[i..]) == before + ArgText(q, args)
    {
      ghost var rest := args[i..];
      assert rest[1..] == args[i + 1..] && rest[0] == args[i];
      s := s + NEXT_LINE;
      s := s + q.quote(args[i]);
      if IsOption(args[i]) && i + 1 < |args| && !IsOption(args[i + 1]) {
        assert rest[2..] == args[i + 2..] && rest[1] == args[i + 1];
        s := s + " ";
        s := s + q.quote(args[i + 1]);
        i := i + 1;
      }
      i := i + 1;
    }
  }

  // ---- the VM's own variables

  function Without(values: seq<(string, string)>, k: string): (r: seq<(string, string)>)
    ensures forall i :: 0 <= i < |r| ==> r[i].0 != k
  {
    if values == [] then []
    else (if values[0].0 == k then [] else [values[0]]) + Without(values[1..], k)
  }

  function WithoutName(names: seq<string>, k: string): (r: seq<string>)
    ensures k !in r
  {
    if names == [] then [] else (if names[0] == k then [] else [names[0]]) + WithoutName(names[1..], k)
  }

  /** Each of `extra` takes the place of what the environment has under its name. */
  function WithExtra(i: Invocation, extra: seq<(string, string)>): Invocation
    decreases |extra|
  {
    if extra == [] then i
    else
      var (k, v) := extra[0];
      WithExtra(i.(env := Without(i.env, k) + [(k, v)], unset := WithoutName(i.unset, k)), extra[1..])
  }

  lemma {:induction false} SetBoth(env: Env, a: seq<(string, string)>, b: seq<(string, string)>)
    ensures Set(env, a + b) == Set(Set(env, a), b)
    decreases |a|
  {
    if a == [] {
      assert a + b == b;
    } else {
      assert (a + b)[1..] == a[1..] + b;
      SetBoth(env[a[0].0 := a[0].1], a[1..], b);
    }
  }

  lemma {:induction false} WithExtraKeeps(i: Invocation, extra: seq<(string, string)>, k: string, v: string, env: Env)
    requires forall j :: 0 <= j < |extra| ==> extra[j].0 != k
    requires k in Set(env, i.env) && Set(env, i.env)[k] == v
    ensures var t := Set(env, WithExtra(i, extra).env); k in t && t[k] == v
    decreases |extra|
  {
    if extra != [] {
      var (l, w) := extra[0];
      var next := i.(env := Without(i.env, l) + [(l, w)], unset := WithoutName(i.unset, l));
      WithoutKeeps(env, i.env, l, k);
      SetBoth(env, Without(i.env, l), [(l, w)]);
      assert [(l, w)][1..] == [];
      WithExtraKeeps(next, extra[1..], k, v, env);
    }
  }

  lemma {:induction false} WithoutKeeps(env: Env, values: seq<(string, string)>, l: string, k: string)
    requires k != l && k in Set(env, values)
    ensures k in Set(env, Without(values, l)) && Set(env, Without(values, l))[k] == Set(env, values)[k]
    decreases |values|
  {
    if values != [] {
      var e := env[values[0].0 := values[0].1];
      var rest := Without(values[1..], l);
      if values[0].0 == l {
        assert Without(values, l) == rest;
        SameElsewhere(env, e, Without(values[1..], l), k, l);
        WithoutKeeps(e, values[1..], l, k);
      } else {
        assert Without(values, l)[1..] == rest;
        WithoutKeeps(e, values[1..], l, k);
      }
    }
  }

  /** A variable set before matters only to itself. */
  lemma {:induction false} SameElsewhere(a: Env, b: Env, values: seq<(string, string)>, k: string, l: string)
    requires k != l && (forall x :: x != l ==> (x in a <==> x in b) && (x in a ==> a[x] == b[x]))
    ensures (k in Set(a, values) <==> k in Set(b, values)) && (k in Set(a, values) ==> Set(a, values)[k] == Set(b, values)[k])
    decreases |values|
  {
    if values != [] {
      SameElsewhere(a[values[0].0 := values[0].1], b[values[0].0 := values[0].1], values[1..], k, l);
    }
  }

  /** Whatever QEMU is started from, each variable of the VM's own has its value. */
  lemma {:induction false} ExtraIsSet(i: Invocation, extra: seq<(string, string)>, n: nat, env: Env)
    requires n < |extra| && forall j, k :: 0 <= j < k < |extra| ==> extra[j].0 != extra[k].0
    ensures var t := Command(WithExtra(i, extra), env).env; extra[n].0 in t && t[extra[n].0] == extra[n].1
    decreases |extra|
  {
    var (k, v) := extra[0];
    var next := i.(env := Without(i.env, k) + [(k, v)], unset := WithoutName(i.unset, k));
    if n == 0 {
      var from := Unset(env, WithExtra(next, extra[1..]).unset);
      SetBoth(from, Without(i.env, k), [(k, v)]);
      assert [(k, v)][1..] == [];
      WithExtraKeeps(next, extra[1..], k, v, from);
    } else {
      ExtraIsSet(next, extra[1..], n - 1, env);
    }
  }

  /** Keys hold no `=` and are each one variable's; `taken`, a shell takes each as it is. */
  ghost predicate Keys(q: Dialect, values: seq<(string, string)>, taken: bool) {
    && Distinct(values)
    && forall i :: 0 <= i < |values| ==> '=' !in values[i].0 && (taken ==> Takes(q, values[i].0, values[i].1))
  }

  lemma {:induction false} WithoutHas(values: seq<(string, string)>, k: string, kv: (string, string))
    ensures kv in Without(values, k) <==> kv in values && kv.0 != k
  {
    if values != [] {
      WithoutHas(values[1..], k, kv);
      assert kv in values <==> kv == values[0] || kv in values[1..];
    }
  }

  lemma {:induction false} WithoutDistinct(values: seq<(string, string)>, k: string)
    requires Distinct(values)
    ensures Distinct(Without(values, k))
  {
    if values != [] {
      var first, rest := values[0], Without(values[1..], k);
      WithoutDistinct(values[1..], k);
      forall j | 0 <= j < |rest| ensures rest[j].0 != first.0 {
        WithoutHas(values[1..], k, rest[j]);
      }
    }
  }

  lemma ReplacedKeys(q: Dialect, values: seq<(string, string)>, kv: (string, string), taken: bool)
    requires Keys(q, values, taken) && '=' !in kv.0 && (taken ==> Takes(q, kv.0, kv.1))
    ensures Keys(q, Without(values, kv.0) + [kv], taken)
  {
    hide Takes;
    var rest := Without(values, kv.0);
    WithoutDistinct(values, kv.0);
    forall j | 0 <= j < |rest| ensures '=' !in rest[j].0 && (taken ==> Takes(q, rest[j].0, rest[j].1)) {
      WithoutHas(values, kv.0, rest[j]);
    }
  }

  lemma {:induction false} WithoutNames(q: Dialect, unset: seq<string>, k: string)
    requires PrintersOwn(q, unset)
    ensures PrintersOwn(q, WithoutName(unset, k))
  {
    hide Name;
    if unset != [] {
      WithoutNames(q, unset[1..], k);
    }
  }

  lemma {:induction false} ExtraKeys(q: Dialect, i: Invocation, extra: seq<(string, string)>, taken: bool)
    requires Keys(q, i.env, taken) && Keys(q, extra, taken) && PrintersOwn(q, i.unset)
    ensures Keys(q, WithExtra(i, extra).env, taken) && PrintersOwn(q, WithExtra(i, extra).unset)
    decreases |extra|
  {
    hide Takes, PrintersOwn;
    if extra != [] {
      var (k, v) := extra[0];
      ReplacedKeys(q, i.env, (k, v), taken);
      WithoutNames(q, i.unset, k);
      ExtraKeys(q, i.(env := Without(i.env, k) + [(k, v)], unset := WithoutName(i.unset, k)), extra[1..], taken);
    }
  }

  /** The variables printed are the VM's own, and those it had before under other names. */
  lemma {:induction false} ExtraHas(i: Invocation, extra: seq<(string, string)>, kv: (string, string))
    requires Distinct(extra)
    ensures kv in WithExtra(i, extra).env
       <==> kv in extra || (kv in i.env && forall j :: 0 <= j < |extra| ==> extra[j].0 != kv.0)
    decreases |extra|
  {
    if extra != [] {
      var (k, v) := extra[0];
      var before := Without(i.env, k);
      var next := i.(env := before + [(k, v)], unset := WithoutName(i.unset, k));
      ExtraHas(next, extra[1..], kv);
      WithoutHas(i.env, k, kv);
      assert kv in next.env <==> kv in before || kv == (k, v);
      assert kv in extra <==> kv == (k, v) || kv in extra[1..];
      assert forall j :: 0 < j < |extra| ==> extra[j] == extra[1..][j - 1];
      assert (forall j :: 0 <= j < |extra| ==> extra[j].0 != kv.0)
        <==> kv.0 != k && forall j :: 0 <= j < |extra[1..]| ==> extra[1..][j].0 != kv.0;
    }
  }

  lemma {:induction false} WithoutNameHas(names: seq<string>, k: string, u: string)
    ensures u in WithoutName(names, k) <==> u in names && u != k
  {
    if names != [] {
      WithoutNameHas(names[1..], k, u);
      assert u in names <==> u == names[0] || u in names[1..];
    }
  }

  /** Those unset are the ones unset before, but for the VM's own. */
  lemma {:induction false} ExtraUnsets(i: Invocation, extra: seq<(string, string)>, u: string)
    ensures u in WithExtra(i, extra).unset <==> u in i.unset && forall j :: 0 <= j < |extra| ==> extra[j].0 != u
    decreases |extra|
  {
    if extra != [] {
      var (k, v) := extra[0];
      var next := i.(env := Without(i.env, k) + [(k, v)], unset := WithoutName(i.unset, k));
      ExtraUnsets(next, extra[1..], u);
      WithoutNameHas(i.unset, k, u);
      assert forall j :: 0 < j < |extra| ==> extra[j] == extra[1..][j - 1];
      assert (forall j :: 0 <= j < |extra| ==> extra[j].0 != u)
        <==> u != k && forall j :: 0 <= j < |extra[1..]| ==> extra[1..][j].0 != u;
    }
  }

  /** What a VM's script runs is what its command does exactly when the shell takes each variable of its
      own. */
  lemma VmScriptIsCommandIff(q: Dialect, i: Invocation, extra: seq<(string, string)>, comment: seq<string>, env: Env)
    requires Faithful(q) && Keys(q, i.env, true) && Keys(q, extra, false) && PrintersOwn(q, i.unset)
    requires forall k :: 0 <= k < |comment| ==> '\n' !in comment[k]
    ensures Exec(q, Script(q, WithExtra(i, extra), comment), env) == Some(Command(WithExtra(i, extra), env))
       <==> forall n :: 0 <= n < |extra| ==> Takes(q, extra[n].0, extra[n].1)
  {
    hide Exec, Faithful, Takes, Script, Command, WithExtra, PrintersOwn;
    var j := WithExtra(i, extra);
    ExtraKeys(q, i, extra, false);
    ScriptIsCommandIff(q, j, comment, env);
    if forall n :: 0 <= n < |extra| ==> Takes(q, extra[n].0, extra[n].1) {
      ExtraKeys(q, i, extra, true);
    } else {
      var n :| 0 <= n < |extra| && !Takes(q, extra[n].0, extra[n].1);
      ExtraHas(i, extra, extra[n]);
    }
  }
}
