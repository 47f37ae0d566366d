/**
 * The two passes run over the scripts of a freshly installed project:
 * `ensure_executable_scripts` gives POSIX shell scripts their execute bits and
 * `ensure_powershell_scripts_utf8_bom` puts a UTF-8 byte-order mark in front of
 * PowerShell scripts on Windows.
 */
module Normalize {
  import opened Wrappers
  import opened Text
  import opened Utf8
  import opened Agents
  import TemplateTree

  type Path = TemplateTree.Path

  // ---------------------------------------------------------------------------
  // Execute bits

  const AnyExec: bv16 := 0x49    // 0o111
  const OwnerRead: bv16 := 0x100 // 0o400
  const OwnerExec: bv16 := 0x40  // 0o100
  const GroupRead: bv16 := 0x20  // 0o040
  const GroupExec: bv16 := 0x8   // 0o010
  const OtherRead: bv16 := 0x4   // 0o004
  const OtherExec: bv16 := 0x1   // 0o001

  predicate IsExecutable(mode: bv16) {
    mode & AnyExec != 0
  }

  /**
   * The mode a script is given: left alone when anyone may already execute it;
   * otherwise each class that may read it may now execute it, and the owner may
   * execute it in any case. No other bit changes.
   */
  function ExecutableMode(mode: bv16): (m: bv16)
    ensures IsExecutable(m)
    ensures IsExecutable(mode) ==> m == mode
    ensures !IsExecutable(mode) ==>
              && m & !AnyExec == mode & !AnyExec
              && m & OwnerExec != 0
              && (m & GroupExec != 0 <==> mode & GroupRead != 0)
              && (m & OtherExec != 0 <==> mode & OtherRead != 0)
  {
    if IsExecutable(mode) then mode
    else
      var withOwner := if mode & OwnerRead != 0 then mode | OwnerExec else mode;
      var withGroup := if mode & GroupRead != 0 then withOwner | GroupExec else withOwner;
      var withOther := if mode & OtherRead != 0 then withGroup | OtherExec else withGroup;
      if withOther & OwnerExec == 0 then withOther | OwnerExec else withOther
  }

  /** Running the pass again on its own output changes nothing. */
  lemma ExecutableModeIdempotent(mode: bv16)
    ensures ExecutableMode(ExecutableMode(mode)) == ExecutableMode(mode)
  {
  }

  /** What the file system reports about one `*.sh` entry the walk finds. */
  datatype ShellScript = ShellScript(
    isSymlink: bool,
    isRegular: bool,
    contents: Option<seq<Byte>>,  // None when the file cannot be opened or read
    mode: Option<bv16>,           // None when `stat` fails
    chmodSucceeds: bool)

  /** The first two bytes are `#!`. */
  predicate HasShebang(data: seq<Byte>) {
    |data| >= 2 && data[0] == 0x23 && data[1] == 0x21
  }

  /** A regular file (not a link) that starts with `#!`: the pass wants it executable. */
  predicate IsCandidate(s: ShellScript) {
    !s.isSymlink && s.isRegular && s.contents.Some? && HasShebang(s.contents.value)
  }

  datatype ExecOutcome = Untouched | MadeExecutable(mode: bv16) | Failed

  /** What the pass does to one script. */
  function ExecStep(s: ShellScript): (o: ExecOutcome)
    ensures !IsCandidate(s) ==> o == Untouched
    ensures o.Failed? <==>
              IsCandidate(s) && (s.mode.None? || (!IsExecutable(s.mode.value) && !s.chmodSucceeds))
    ensures o.MadeExecutable? <==>
              IsCandidate(s) && s.mode.Some? && !IsExecutable(s.mode.value) && s.chmodSucceeds
    ensures o.MadeExecutable? ==> o.mode == ExecutableMode(s.mode.value) && o.mode != s.mode.value
  {
    if s.isSymlink || !s.isRegular then Untouched
    else if s.contents.None? || !HasShebang(s.contents.value) then Untouched
    else if s.mode.None? then Failed
    else if IsExecutable(s.mode.value) then Untouched
    else if !s.chmodSucceeds then Failed
    else MadeExecutable(ExecutableMode(s.mode.value))
  }

  /** The `*.sh` files anywhere below `.specify/scripts`. */
  predicate IsShellScriptPath(p: Path) {
    |p| > 2 && p[..2] == [".specify", "scripts"] && EndsWith(p[|p| - 1], ".sh")
  }

  function ShellScripts(scripts: map<Path, ShellScript>): set<Path> {
    set p | p in scripts && IsShellScriptPath(p)
  }

  /** The scripts of `order` the pass reports as failures, in walk order. */
  function FailuresIn(scripts: map<Path, ShellScript>, order: seq<Path>): (r: seq<Path>)
    requires forall i :: 0 <= i < |order| ==> order[i] in scripts
    ensures forall p :: p in r <==> p in order && ExecStep(scripts[p]).Failed?
  {
    if order == [] then []
    else
      var p := order[|order| - 1];
      var before := FailuresIn(scripts, order[..|order| - 1]);
      assert forall q :: q in order <==> q in order[..|order| - 1] || q == p;
      if ExecStep(scripts[p]).Failed? then before + [p] else before
  }

  /** The loop of the pass: apply `ExecStep` to each script of `order`. */
  method ChmodScripts(scripts: map<Path, ShellScript>, order: seq<Path>)
    returns (modes: map<Path, bv16>, updated: nat, failures: seq<Path>)
    requires forall i :: 0 <= i < |order| ==> order[i] in scripts
    requires forall i, j :: 0 <= i < j < |order| ==> order[i] != order[j]
    ensures forall p :: p in modes <==> p in order && ExecStep(scripts[p]).MadeExecutable?
    ensures forall p :: p in modes ==> modes[p] == ExecStep(scripts[p]).mode
    ensures updated == |modes|
    ensures failures == FailuresIn(scripts, order)
  {
    modes, updated, failures := map[], 0, [];
    for i := 0 to |order|
      invariant forall p :: p in modes <==> p in order[..i] && ExecStep(scripts[p]).MadeExecutable?
      invariant forall p :: p in modes ==> modes[p] == ExecStep(scripts[p]).mode
      invariant updated == |modes|
      invariant failures == FailuresIn(scripts, order[..i])
    {
      var p := order[i];
      assert order[..i + 1][..i] == order[..i];
      assert forall q :: q in order[..i + 1] <==> q in order[..i] || q == p;
      assert p !in order[..i];
      match ExecStep(scripts[p])
      case Untouched =>
      case Failed =>
        failures := failures + [p];
      case MadeExecutable(m) =>
        modes := modes[p := m];
        updated := updated + 1;
    }
    assert order[..|order|] == order;
  }

  /**
   * `ensure_executable_scripts`: nothing on Windows; on POSIX, walks the shell
   * scripts in `order` and returns the new mode of every script it changed,
   * how many those are, and the scripts it could not stat or chmod.
   */
  method EnsureExecutableScripts(platform: Platform, scripts: map<Path, ShellScript>, order: seq<Path>)
    returns (modes: map<Path, bv16>, updated: nat, failures: seq<Path>)
    requires TemplateTree.Enumerates(order, ShellScripts(scripts))
    ensures platform == Windows ==> modes == map[] && updated == 0 && failures == []
    ensures forall p :: p in modes <==>
              platform == Posix && p in scripts && IsShellScriptPath(p) && ExecStep(scripts[p]).MadeExecutable?
    ensures forall p :: p in modes ==>
              && scripts[p].mode.Some?
              && modes[p] == ExecutableMode(scripts[p].mode.value)
              && IsExecutable(modes[p])
    ensures updated == |modes|
    ensures platform == Posix ==> failures == FailuresIn(scripts, order)
    ensures forall p :: p in failures <==>
              platform == Posix && p in scripts && IsShellScriptPath(p) && ExecStep(scripts[p]).Failed?
  {
    if platform == Windows {
      return map[], 0, [];
    }
    modes, updated, failures := ChmodScripts(scripts, order);
    assert forall p :: p in order <==> p in scripts && IsShellScriptPath(p);
  }

  /** A regular, readable `#!` script that `stat` and `chmod` accept ends up executable. */
  lemma CandidatesEndExecutable(s: ShellScript)
    requires IsCandidate(s) && s.mode.Some? && s.chmodSucceeds
    ensures var o := ExecStep(s);
            (o == Untouched && IsExecutable(s.mode.value)) || (o.MadeExecutable? && IsExecutable(o.mode))
  {
  }

  // ---------------------------------------------------------------------------
  // Byte-order mark

  const Bom: seq<Byte> := [0xEF, 0xBB, 0xBF]

  predicate StartsWithBom(data: seq<Byte>) {
    |data| >= 3 && data[..3] == Bom
  }

  /** The mark is itself one well-formed character, so it never changes validity. */
  lemma BomKeepsValidity(data: seq<Byte>)
    ensures ValidUtf8(Bom + data) <==> ValidUtf8(data)
  {
    FirstCharOfConcat(Bom, data);
    assert (Bom + data)[3..] == data;
  }

  /** The script is rewritten: it has no mark yet and decodes as UTF-8. */
  predicate NeedsBom(data: seq<Byte>) {
    !StartsWithBom(data) && ValidUtf8(data)
  }

  /**
   * One script's contents after the pass: a marked or undecodable file is left
   * alone, any other is decoded and written back encoded, behind the mark.
   */
  function WithBom(data: seq<Byte>): (r: seq<Byte>)
    ensures r == data || r == Bom + data
    ensures r != data <==> NeedsBom(data)
    ensures StartsWithBom(r) <==> StartsWithBom(data) || ValidUtf8(data)
    ensures ValidUtf8(r) <==> ValidUtf8(data)
  {
    if StartsWithBom(data) then data
    else if !ValidUtf8(data) then data
    else
      DecodeEncode(data);
      BomKeepsValidity(data);
      assert (Bom + data)[..3] == Bom;
      Bom + Encode(Decode(data))
  }

  /** A second pass converts nothing. */
  lemma WithBomIdempotent(data: seq<Byte>)
    ensures WithBom(WithBom(data)) == WithBom(data)
    ensures !NeedsBom(WithBom(data))
  {
  }

  /** The `*.ps1` files anywhere below `.specify/scripts/powershell`. */
  predicate IsPowerShellPath(p: Path) {
    |p| > 3 && p[..3] == [".specify", "scripts", "powershell"] && EndsWithIgnoringCase(p[|p| - 1], ".ps1")
  }

  /** ASCII case folding: `A`-`Z` compare equal to `a`-`z`, every other character only to itself. */
  function FoldCase(c: char): (d: char)
    ensures 'A' <= c <= 'Z' ==> 'a' <= d <= 'z' && d as int == c as int + 32
    ensures !('A' <= c <= 'Z') ==> d == c
  {
    if 'A' <= c <= 'Z' then (c as int + 32) as char else c
  }

  function FoldCaseString(s: string): (r: string)
    ensures |r| == |s| && forall i :: 0 <= i < |s| ==> r[i] == FoldCase(s[i])
  {
    if s == [] then [] else [FoldCase(s[0])] + FoldCaseString(s[1..])
  }

  predicate EndsWithIgnoringCase(s: string, suffix: string) {
    EndsWith(FoldCaseString(s), FoldCaseString(suffix))
  }

  function PowerShellScripts(files: map<Path, seq<Byte>>): set<Path> {
    set p | p in files && IsPowerShellPath(p)
  }

  /** How many scripts of `order` the pass rewrites. */
  function CountNeedingBom(files: map<Path, seq<Byte>>, order: seq<Path>): nat
    requires forall i :: 0 <= i < |order| ==> order[i] in files
  {
    if order == [] then 0
    else
      CountNeedingBom(files, order[..|order| - 1])
        + if NeedsBom(files[order[|order| - 1]]) then 1 else 0
  }

  /** For a walk that visits each script once, the count is the number of scripts needing the mark. */
  lemma {:induction false} CountNeedingBomIsCardinality(files: map<Path, seq<Byte>>, order: seq<Path>)
    requires forall i :: 0 <= i < |order| ==> order[i] in files
    requires forall i, j :: 0 <= i < j < |order| ==> order[i] != order[j]
    ensures CountNeedingBom(files, order) == |set p | p in order && NeedsBom(files[p])|
  {
    if order != [] {
      var last := order[|order| - 1];
      var init := order[..|order| - 1];
      CountNeedingBomIsCardinality(files, init);
      var before := set p | p in init && NeedsBom(files[p]);
      var after := set p | p in order && NeedsBom(files[p]);
      assert last !in init;
      assert forall q :: q in order <==> q in init || q == last;
      if NeedsBom(files[last]) {
        assert after == before + {last};
      } else {
        assert after == before;
      }
    }
  }

  /** The loop of the pass: rewrite each script of `order` that needs the mark. */
  method MarkScripts(files: map<Path, seq<Byte>>, order: seq<Path>)
    returns (out: map<Path, seq<Byte>>, converted: nat)
    requires forall i :: 0 <= i < |order| ==> order[i] in files
    requires forall i, j :: 0 <= i < j < |order| ==> order[i] != order[j]
    ensures out.Keys == files.Keys
    ensures forall p :: p in order ==> out[p] == WithBom(files[p])
    ensures forall p :: p in files && p !in order ==> out[p] == files[p]
    ensures converted == CountNeedingBom(files, order)
  {
    out, converted := files, 0;
    for i := 0 to |order|
      invariant out.Keys == files.Keys
      invariant forall p :: p in order[..i] ==> out[p] == WithBom(files[p])
      invariant forall p :: p in files && p !in order[..i] ==> out[p] == files[p]
      invariant converted == CountNeedingBom(files, order[..i])
    {
      var p := order[i];
      assert order[..i + 1][..i] == order[..i];
      assert forall q :: q in order[..i + 1] <==> q in order[..i] || q == p;
      assert p !in order[..i];
      var data := out[p];
      if !StartsWithBom(data) && ValidUtf8(data) {
        DecodeEncode(data);
        out := out[p := Bom + Encode(Decode(data))];
        converted := converted + 1;
      }
    }
    assert order[..|order|] == order;
  }

  /**
   * A directory below `.specify/scripts/powershell` whose name matches `*.ps1`:
   * `rglob` yields it like a script, and `read_bytes` on it raises.
   */
  predicate IsPowerShellDir(files: map<Path, seq<Byte>>, d: Path) {
    IsPowerShellPath(d) && exists q :: q in files && TemplateTree.IsProperPrefix(d, q)
  }

  /** Whether the tree holds such a directory, found by looking at every prefix of every file. */
  function HasPowerShellDir(files: map<Path, seq<Byte>>): (b: bool)
    ensures b <==> exists d :: IsPowerShellDir(files, d)
  {
    var dirs := set q, i | q in files && 3 < i < |q| && IsPowerShellPath(q[..i]) :: q[..i];
    assert forall d :: IsPowerShellDir(files, d) ==> d in dirs by {
      forall d | IsPowerShellDir(files, d)
        ensures d in dirs
      {
        var q :| q in files && TemplateTree.IsProperPrefix(d, q);
        assert q[..|d|] == d;
      }
    }
    assert forall d :: d in dirs ==> IsPowerShellDir(files, d) by {
      forall d | d in dirs
        ensures IsPowerShellDir(files, d)
      {
        var q, i :| q in files && 3 < i < |q| && IsPowerShellPath(q[..i]) && d == q[..i];
        assert TemplateTree.IsProperPrefix(d, q);
      }
    }
    dirs != {}
  }

  /**
   * `ensure_powershell_scripts_utf8_bom`, which runs only on Windows for a
   * PowerShell project: every PowerShell script gets the mark unless it has one
   * or does not decode; the count is the number of files rewritten. A directory
   * named like a script makes the pass raise (`failed`); which scripts were
   * rewritten before that depends on the listing order, so only "each file is
   * either untouched or marked" is stated then.
   */
  method EnsurePowerShellBom(platform: Platform, script: ScriptType, files: map<Path, seq<Byte>>, order: seq<Path>)
    returns (out: map<Path, seq<Byte>>, converted: nat, failed: bool)
    requires TemplateTree.Enumerates(order, PowerShellScripts(files))
    ensures out.Keys == files.Keys
    ensures failed <==> platform == Windows && script == Ps && exists d :: IsPowerShellDir(files, d)
    ensures !(platform == Windows && script == Ps) ==> out == files && converted == 0
    ensures failed ==>
              forall p :: p in files ==> out[p] == files[p] || (IsPowerShellPath(p) && out[p] == WithBom(files[p]))
    ensures platform == Windows && script == Ps && !failed ==>
              && (forall p :: p in files ==>
                    out[p] == if IsPowerShellPath(p) then WithBom(files[p]) else files[p])
              && converted == |set p | p in files && IsPowerShellPath(p) && NeedsBom(files[p])|
  {
    if !(platform == Windows && script == Ps) {
      return files, 0, false;
    }
    if HasPowerShellDir(files) {
      return files, 0, true;
    }
    failed := false;
    out, converted := MarkScripts(files, order);
    CountNeedingBomIsCardinality(files, order);
    assert forall p :: p in order <==> p in files && IsPowerShellPath(p);
    assert (set p | p in order && NeedsBom(files[p]))
        == (set p | p in files && IsPowerShellPath(p) && NeedsBom(files[p]));
  }
}
