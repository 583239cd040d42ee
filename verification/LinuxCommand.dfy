/** The command line for the container: pieces joined by `&&`, each of which the shell reads on its own. */
module LinuxCommand {
  import opened Options
  import opened Shell
  import opened ShellQuoting

  // ----- Joining with && -----

  function JoinAnd(pieces: seq<string>): string {
    if pieces == [] then ""
    else if |pieces| == 1 then pieces[0]
    else pieces[0] + " && " + JoinAnd(pieces[1..])
  }

  function TokensAnd(tokens: seq<seq<Token>>): seq<Token> {
    if tokens == [] then []
    else if |tokens| == 1 then tokens[0]
    else tokens[0] + [And] + TokensAnd(tokens[1..])
  }

  lemma AndRun(rest: string)
    ensures Tokens(" && " + rest, Plain, None) == Before([And], Tokens(rest, Plain, None))
  {
    var s := "&& " + rest;
    assert " && " + rest == [' '] + s;
    Blank(s);
    assert OperatorLength(s) == 2 && s[..2] == "&&" && s[2..] == [' '] + rest;
    assert [] + [And] == [And];
    assert Tokens(s, Plain, None) == Before([And], Tokens([' '] + rest, Plain, None));
    hide Tokens;
    Blank(rest);
  }

  ghost predicate AllRead(pieces: seq<string>, tokens: seq<seq<Token>>) {
    |pieces| == |tokens| && forall k :: 0 <= k < |pieces| ==> Reads(pieces[k], tokens[k])
  }

  lemma {:induction false} JoinAndRun(pieces: seq<string>, tokens: seq<seq<Token>>)
    requires AllRead(pieces, tokens)
    ensures Tokens(JoinAnd(pieces), Plain, None) == Some(TokensAnd(tokens))
    decreases |pieces|
  {
    hide Tokens;
    if pieces == [] {
      NoTokens();
    } else {
      assert Reads(pieces[0], tokens[0]);
      if |pieces| == 1 {
        NoTokens();
        assert pieces[0] + "" == pieces[0] && tokens[0] + [] == tokens[0] && EndsWord("");
      } else {
        var rest := JoinAnd(pieces[1..]);
        assert JoinAnd(pieces) == pieces[0] + (" && " + rest);
        assert EndsWord(" && " + rest);
        AndRun(rest);
        JoinAndRun(pieces[1..], tokens[1..]);
        assert tokens[0] + ([And] + TokensAnd(tokens[1..])) == TokensAnd(tokens);
      }
    }
  }

  ghost predicate NoAnd(tokens: seq<Token>) {
    forall k :: 0 <= k < |tokens| ==> tokens[k] != And
  }

  lemma {:induction false} SplitNoAnd(tokens: seq<Token>)
    requires NoAnd(tokens)
    ensures SplitAnd(tokens) == [tokens]
  {
    if tokens != [] {
      SplitNoAnd(tokens[1..]);
      assert tokens == [tokens[0]] + tokens[1..];
      assert [[tokens[0]] + tokens[1..]] + [] == [tokens];
    }
  }

  lemma {:induction false} SplitFirst(a: seq<Token>, b: seq<Token>)
    requires NoAnd(a)
    ensures SplitAnd(a + [And] + b) == [a] + SplitAnd(b)
    decreases |a|
  {
    var all := a + [And] + b;
    if a == [] {
      assert all[1..] == b;
    } else {
      assert all[1..] == a[1..] + [And] + b;
      SplitFirst(a[1..], b);
      var rest := [a[1..]] + SplitAnd(b);
      assert rest[0] == a[1..] && rest[1..] == SplitAnd(b);
      assert a == [a[0]] + a[1..] && all[0] == a[0];
    }
  }

  lemma {:induction false} SplitTokensAnd(tokens: seq<seq<Token>>)
    requires tokens != [] && forall k :: 0 <= k < |tokens| ==> NoAnd(tokens[k])
    ensures SplitAnd(TokensAnd(tokens)) == tokens
    decreases |tokens|
  {
    hide NoAnd;
    assert NoAnd(tokens[0]);
    if |tokens| == 1 {
      SplitNoAnd(tokens[0]);
    } else {
      SplitTokensAnd(tokens[1..]);
      SplitFirst(tokens[0], TokensAnd(tokens[1..]));
      assert tokens == [tokens[0]] + tokens[1..];
    }
  }

  // ----- The pieces -----

  const SetOptions := "set -euo pipefail"

  const Toolchain := "PATH=/usr/local/rustup/" + "toolchains/1.95.0-aarch64-" + "unknown-linux-gnu/bin:" + "/usr/local/cargo/bin:"

  const ExportPath := "export " + Toolchain + "$PATH"

  function BuildWords(target: string, release: bool): seq<string> {
    ["cargo", "build"] + (if release then ["--release"] else []) + ["--bin", "sld", "--target-dir", target]
  }

  function ValidateWords(linuxBase: string, release: bool, validation: seq<string>): seq<string> {
    ["python3", "/work/scripts/validate-top-crates.py", "--work-dir", linuxBase + "/linux", "--sld",
     linuxBase + "/linux-sld-target" + "/" + (if release then "release" else "debug") + "/sld"] + validation
  }

  /** The word after the first `key`. */
  function After(words: seq<string>, key: string): string {
    if |words| < 2 then "" else if words[0] == key then words[1] else After(words[1..], key)
  }

  lemma AfterStep(word: string, rest: seq<string>, key: string)
    requires rest != []
    ensures After([word] + rest, key) == if word == key then rest[0] else After(rest, key)
  {
    assert ([word] + rest)[1..] == rest;
  }

  /**
    The binary that is validated is the one that the build puts into its target directory, for its profile; the work
    directory is beside that.
   */
  lemma ValidatedIsBuilt(linuxBase: string, release: bool, validation: seq<string>)
    ensures var build, validate := BuildWords(linuxBase + "/linux-sld-target", release), ValidateWords(linuxBase, release, validation);
            && After(validate, "--sld") ==
               After(build, "--target-dir") + "/" + (if "--release" in build then "release" else "debug") + "/" + After(build, "--bin")
            && After(build, "--target-dir") == linuxBase + "/linux-sld-target" && After(validate, "--work-dir") == linuxBase + "/linux"
            && ("--release" in build[2..] <==> release)
  {
    var target := linuxBase + "/linux-sld-target";
    var tail: seq<string> := ["--bin", "sld", "--target-dir", target];
    var last: seq<string> := ["--target-dir", target];
    assert tail == ["--bin"] + (["sld"] + last) && last == ["--target-dir"] + [target];
    AfterStep("--bin", ["sld"] + last, "--bin");
    AfterStep("--bin", ["sld"] + last, "--target-dir");
    AfterStep("sld", last, "--target-dir");
    AfterStep("--target-dir", [target], "--target-dir");
    BuildStarts(tail, release);
    var binary := target + "/" + (if release then "release" else "debug") + "/sld";
    ValidateStarts(linuxBase, binary, validation);
    assert ValidateWords(linuxBase, release, validation) == ValidateList(linuxBase, binary, validation);
    assert (if release then "release" else "debug") + "/" + "sld" == (if release then "release" else "debug") + "/sld";
  }

  lemma BuildStarts(tail: seq<string>, release: bool)
    requires |tail| == 4 && "--release" !in tail
    ensures var build := ["cargo", "build"] + (if release then ["--release"] else []) + tail;
            && After(build, "--bin") == After(tail, "--bin") && After(build, "--target-dir") == After(tail, "--target-dir")
            && ("--release" in build <==> release) && ("--release" in build[2..] <==> release)
  {
    var middle := (if release then ["--release"] else []) + tail;
    var build := ["cargo", "build"] + (if release then ["--release"] else []) + tail;
    assert build == ["cargo"] + (["build"] + middle) && build[2..] == middle;
    forall key | key in {"--bin", "--target-dir"} ensures After(build, key) == After(tail, key) {
      AfterStep("cargo", ["build"] + middle, key);
      AfterStep("build", middle, key);
      if release {
        AfterStep("--release", tail, key);
      } else {
        assert middle == tail;
      }
    }
  }

  function ValidateList(linuxBase: string, binary: string, validation: seq<string>): seq<string> {
    ["python3", "/work/scripts/validate-top-crates.py", "--work-dir", linuxBase + "/linux", "--sld", binary] + validation
  }

  lemma ValidateStarts(linuxBase: string, binary: string, validation: seq<string>)
    ensures After(ValidateList(linuxBase, binary, validation), "--work-dir") == linuxBase + "/linux"
    ensures After(ValidateList(linuxBase, binary, validation), "--sld") == binary
  {
    var a, b, c := linuxBase + "/linux", "/work/scripts/validate-top-crates.py", [binary] + validation;
    assert |a| >= 6 && |"--sld"| == 5;
    var all := ValidateList(linuxBase, binary, validation);
    assert all == ["python3"] + ([b] + (["--work-dir"] + ([a] + (["--sld"] + c))));
    forall key | key in {"--work-dir", "--sld"} ensures After(all, key) == After(["--work-dir"] + ([a] + (["--sld"] + c)), key) {
      AfterStep("python3", [b] + (["--work-dir"] + ([a] + (["--sld"] + c))), key);
      AfterStep(b, ["--work-dir"] + ([a] + (["--sld"] + c)), key);
    }
    AfterStep("--work-dir", [a] + (["--sld"] + c), "--work-dir");
    AfterStep("--work-dir", [a] + (["--sld"] + c), "--sld");
    AfterStep(a, ["--sld"] + c, "--sld");
    AfterStep("--sld", c, "--sld");
  }

  /** What the pieces should be read as. */
  function PieceTokens(linuxBase: string, skipBuild: bool, release: bool, validation: seq<string>, beyond: char -> bool): seq<seq<Token>> {
    [WordTokens(["set", "-euo", "pipefail"], beyond), [Word(Marked("export", false)), Word(Marked(Toolchain + "$PATH", false))]]
    + (if skipBuild then [] else [WordTokens(BuildWords(linuxBase + "/linux-sld-target", release), beyond)])
    + [WordTokens(ValidateWords(linuxBase, release, validation), beyond)]
  }

  lemma SafeConcat(a: string, b: string, beyond: char -> bool)
    requires AllSafe(a, beyond) && AllSafe(b, beyond)
    ensures AllSafe(a + b, beyond)
  {
    hide Safe;
  }

  lemma ToolchainStartSafe(beyond: char -> bool)
    ensures AllSafe("PATH=/usr/local/rustup/", beyond) && AllSafe("toolchains/1.95.0-aarch64-", beyond)
  {
  }

  lemma ToolchainSafe(beyond: char -> bool)
    ensures AllSafe(Toolchain, beyond) && Toolchain != ""
  {
    ToolchainStartSafe(beyond);
    assert AllSafe("unknown-linux-gnu/bin:", beyond);
    assert AllSafe("/usr/local/cargo/bin:", beyond);
    hide Safe;
    SafeConcat("PATH=/usr/local/rustup/", "toolchains/1.95.0-aarch64-", beyond);
    SafeConcat("PATH=/usr/local/rustup/" + "toolchains/1.95.0-aarch64-", "unknown-linux-gnu/bin:", beyond);
    SafeConcat("PATH=/usr/local/rustup/" + "toolchains/1.95.0-aarch64-" + "unknown-linux-gnu/bin:", "/usr/local/cargo/bin:", beyond);
  }

  lemma SetOptionsRead(beyond: char -> bool)
    ensures Reads(SetOptions, WordTokens(["set", "-euo", "pipefail"], beyond))
  {
    var parts := ["set", "-euo", "pipefail"];
    assert AllSafe("set", beyond) && AllSafe("-euo", beyond) && AllSafe("pipefail", beyond);
    hide Tokens, WordTokens, Reads, Safe;
    JoinReads(parts, beyond);
    assert ShellJoin(["pipefail"], beyond) == "pipefail";
    assert parts[1..] == ["-euo", "pipefail"] && ["-euo", "pipefail"][1..] == ["pipefail"];
    assert ShellJoin(["-euo", "pipefail"], beyond) == "-euo" + " " + "pipefail";
    assert ShellJoin(parts, beyond) == "set" + " " + ("-euo" + " " + "pipefail") == SetOptions;
  }

  lemma DollarStep(rest: string, marks: seq<Mark>)
    ensures Tokens("$PATH" + rest, Plain, Some(marks)) == Tokens("PATH" + rest, Plain, Some(marks + [Mark('$', false)]))
  {
    assert ("$PATH" + rest)[1..] == "PATH" + rest;
  }

  /** A word that ends in the expansion of a variable. */
  lemma PathRun(tool: string, rest: string, beyond: char -> bool)
    requires EndsWord(rest) && tool != "" && AllSafe(tool, beyond)
    ensures Tokens(tool + ("$PATH" + rest), Plain, None) == Before([Word(Marked(tool + "$PATH", false))], Tokens(rest, Plain, None))
  {
    assert AllSafe("PATH", beyond);
    hide Tokens, Safe;
    SafeRun(tool, "$PATH" + rest, None, beyond);
    assert [] + Marked(tool, false) == Marked(tool, false);
    DollarStep(rest, Marked(tool, false));
    var last := Marked(tool, false) + [Mark('$', false)];
    SafeRun("PATH", rest, Some(last), beyond);
    MarkedPath(tool);
    WordEnds(rest, Some(Marked(tool + "$PATH", false)));
  }

  lemma MarkedPath(tool: string)
    ensures Marked(tool, false) + [Mark('$', false)] + Marked("PATH", false) == Marked(tool + "$PATH", false)
  {
    assert "$PATH" == ['$'] + "PATH";
    assert Marked(tool + "$PATH", false) == Marked(tool, false) + Marked("$PATH", false);
    assert Marked("$PATH", false) == [Mark('$', false)] + Marked("PATH", false);
  }

  lemma ExportRun(tool: string, rest: string, beyond: char -> bool)
    requires EndsWord(rest) && tool != "" && AllSafe(tool, beyond)
    ensures Tokens("export " + tool + "$PATH" + rest, Plain, None) ==
            Before([Word(Marked("export", false)), Word(Marked(tool + "$PATH", false))], Tokens(rest, Plain, None))
  {
    assert AllSafe("export", beyond);
    hide Tokens, Safe;
    var s := tool + ("$PATH" + rest);
    assert "export " + tool + "$PATH" + rest == "export" + ([' '] + s);
    SafeRun("export", [' '] + s, None, beyond);
    assert [] + Marked("export", false) == Marked("export", false);
    hide Marked;
    WordEnds([' '] + s, Some(Marked("export", false)));
    Blank(s);
    PathRun(tool, rest, beyond);
    var first, second := Word(Marked("export", false)), Word(Marked(tool + "$PATH", false));
    BeforeTwice([first], [second], Tokens(rest, Plain, None));
    assert [first] + [second] == [first, second];
  }

  lemma ExportRead(beyond: char -> bool)
    ensures Reads(ExportPath, [Word(Marked("export", false)), Word(Marked(Toolchain + "$PATH", false))])
  {
    ToolchainSafe(beyond);
    hide Tokens, Marked, Toolchain, AllSafe;
    forall rest | EndsWord(rest)
      ensures Tokens(ExportPath + rest, Plain, None) ==
              Before([Word(Marked("export", false)), Word(Marked(Toolchain + "$PATH", false))], Tokens(rest, Plain, None))
    {
      ExportRun(Toolchain, rest, beyond);
    }
  }

  lemma {:induction false} WordTokensNoAnd(parts: seq<string>, beyond: char -> bool)
    ensures NoAnd(WordTokens(parts, beyond))
    decreases |parts|
  {
    hide QuotedMarks;
    if parts != [] {
      WordTokensNoAnd(parts[1..], beyond);
    }
  }

  /** The pieces are collected one by one and joined. */
  method LinuxShellCommand(linuxBase: string, skipBuild: bool, release: bool, validation: seq<string>, beyond: char -> bool)
    returns (command: string)
    ensures var tokens := PieceTokens(linuxBase, skipBuild, release, validation, beyond);
            && Tokenize(command) == Some(TokensAnd(tokens))
            && SplitAnd(TokensAnd(tokens)) == tokens
            && Texts(tokens[|tokens| - 1]) == Some(NonEmpty(ValidateWords(linuxBase, release, validation)))
            && (!skipBuild ==> Texts(tokens[2]) == Some(NonEmpty(BuildWords(linuxBase + "/linux-sld-target", release))))
  {
    hide Tokens, ShellJoin, WordTokens, Marked, Reads, Safe, ValidateWords, BuildWords, Texts, SplitAnd, NoAnd;
    var target := linuxBase + "/linux-sld-target";
    var pieces := [SetOptions, ExportPath];
    ghost var tokens := [WordTokens(["set", "-euo", "pipefail"], beyond), [Word(Marked("export", false)), Word(Marked(Toolchain + "$PATH", false))]];
    SetOptionsRead(beyond);
    ExportRead(beyond);
    WordTokensNoAnd(["set", "-euo", "pipefail"], beyond);
    ExportNoAnd();
    if !skipBuild {
      var build := BuildWords(target, release);
      JoinReads(build, beyond);
      WordTokensNoAnd(build, beyond);
      WordTokensTexts(build, beyond);
      pieces := pieces + [ShellJoin(build, beyond)];
      tokens := tokens + [WordTokens(build, beyond)];
    }
    var validate := ValidateWords(linuxBase, release, validation);
    JoinReads(validate, beyond);
    WordTokensNoAnd(validate, beyond);
    WordTokensTexts(validate, beyond);
    pieces := pieces + [ShellJoin(validate, beyond)];
    tokens := tokens + [WordTokens(validate, beyond)];
    assert tokens == PieceTokens(linuxBase, skipBuild, release, validation, beyond);
    JoinAndRun(pieces, tokens);
    SplitTokensAnd(tokens);
    command := JoinAnd(pieces);
  }

  lemma ExportNoAnd()
    ensures NoAnd([Word(Marked("export", false)), Word(Marked(Toolchain + "$PATH", false))])
  {
    hide Marked;
  }
}
