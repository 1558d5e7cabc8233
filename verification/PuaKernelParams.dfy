/**
 The kernel parameter file of Edge Microvisor Toolkit nodes. Every kernel update rewrites the
 options line of the boot entry from the original command line kept in its fourth line.
 */
module PuaKernelParams {
  import opened Wrappers
  import opened Text

  const TITLE := "title   Edge Microvisor Toolkit Kernel Parameters"
  const LINUX := "linux   /EFI/Linux/"

  /** What sh -c "echo '...' > file" leaves in the file. */
  type Shell = string -> string

  predicate QuoteSafe(s: string) {
    '\'' !in s && '\\' !in s
  }

  /** On one line, and safe to quote. */
  predicate Plain(s: string) {
    QuoteSafe(s) && '\n' !in s
  }

  /** Between single quotes a shell only treats quotes and, for some shells' echo, backslashes specially. */
  ghost predicate EchoesFaithfully(shell: Shell) {
    forall s :: QuoteSafe(s) ==> shell(s) == s + "\n"
  }

  predicate IsEfiFile(name: string) {
    HasPrefix(name, "linux-") && HasSuffix(name, ".efi")
  }

  /** The first listed file that looks like a kernel image; "" when there is none. */
  function FirstEfiFile(lines: seq<string>): string {
    if lines == [] then "" else if IsEfiFile(lines[0]) then lines[0] else FirstEfiFile(lines[1..])
  }

  /** A kernel image is a name between its prefix and its suffix. */
  lemma EfiFilesAreNamed(name: string, middle: string)
    ensures IsEfiFile("linux-" + middle + ".efi")
    ensures IsEfiFile(name) ==> |name| >= 10 && name == "linux-" + name[6..|name| - 4] + ".efi"
  {
    var file := "linux-" + middle + ".efi";
    assert file[|file| - 4..] == ".efi";
    if IsEfiFile(name) {
      assert name[..6] == "linux-" && name[|name| - 4..] == ".efi";
      assert name[0] == 'l' && name[1] == 'i' && name[2] == 'n' && name[3] == 'u' && name[4] == 'x' && name[5] == '-';
      assert name[|name| - 4] == '.' && name[|name| - 3] == 'e' && name[|name| - 2] == 'f' && name[|name| - 1] == 'i';
    }
  }

  lemma {:induction false} EfiFileIsListed(lines: seq<string>)
    ensures FirstEfiFile(lines) != "" <==> exists line :: line in lines && IsEfiFile(line)
    ensures FirstEfiFile(lines) != "" ==>
              exists i :: 0 <= i < |lines| && lines[i] == FirstEfiFile(lines) && IsEfiFile(lines[i])
                          && forall k :: 0 <= k < i ==> !IsEfiFile(lines[k])
  {
    if lines != [] && !IsEfiFile(lines[0]) {
      var rest := lines[1..];
      EfiFileIsListed(rest);
      if FirstEfiFile(rest) != "" {
        var i :| 0 <= i < |rest| && rest[i] == FirstEfiFile(rest) && IsEfiFile(rest[i])
                 && forall k :: 0 <= k < i ==> !IsEfiFile(rest[k]);
        assert lines[i + 1] == rest[i];
        assert forall k :: 0 < k < i + 1 ==> lines[k] == rest[k - 1];
      }
    }
  }

  /** One kernel update: the requested command, what the node reports, and whether the copy succeeds. */
  datatype KernelUpdate = KernelUpdate(command: string, procCmdline: string, efiFile: string, copied: bool)

  function NewContent(u: KernelUpdate): string {
    Join([TITLE, LINUX + u.efiFile, "options " + TrimSpace(u.procCmdline) + " " + u.command,
          "# " + TrimSpace(u.procCmdline), ""], '\n')
  }

  /** The command line recorded in a comment line. */
  function Original(comment: string): string {
    TrimPrefix(TrimSpace(comment), "# ")
  }

  function OptionsFor(lines: seq<string>, command: string): seq<string>
    requires |lines| >= 4
  {
    lines[2 := "options " + Original(lines[3]) + " " + command]
  }

  function RewrittenContent(content: string, command: string): Option<string> {
    var lines := Split(content, '\n');
    if |lines| < 4 then None else Some(Join(OptionsFor(lines, command), '\n'))
  }

  /** The parameter file after an update; a failed one leaves it as it was. */
  function AfterUpdate(shell: Shell, file: Option<string>, u: KernelUpdate): Option<string> {
    if u.command == "" || !u.copied then file
    else match file
    case None => Some(shell(NewContent(u)))
    case Some(content) =>
      match RewrittenContent(content, u.command)
      case None => file
      case Some(rewritten) => Some(shell(rewritten))
  }

  function AfterUpdates(shell: Shell, updates: seq<KernelUpdate>): Option<string> {
    if updates == [] then None
    else AfterUpdate(shell, AfterUpdates(shell, updates[..|updates| - 1]), updates[|updates| - 1])
  }

  // ----- The law -----

  /** An update that takes effect, with a command on one line that quoting leaves alone. */
  predicate Effective(u: KernelUpdate) {
    u.command != "" && u.copied && Plain(u.command)
  }

  /** A one-line command line as the kernel reports it, already trimmed. */
  predicate OneLine(cmdline: string) {
    Bare(cmdline, IsSpace) && Plain(cmdline)
  }

  /** The file shows the original command line plus this command, and still records the original. */
  predicate Shows(file: Option<string>, original: string, command: string) {
    && file.Some?
    && var lines := Split(file.value, '\n');
       && |lines| >= 4
       && lines[2] == "options " + original + " " + command
       && lines[3] == "# " + original
  }

  /** The boot entry still has its title and boots this kernel image. */
  predicate Boots(file: Option<string>, efiFile: string) {
    && file.Some?
    && var lines := Split(file.value, '\n');
       |lines| >= 2 && lines[0] == TITLE && lines[1] == LINUX + efiFile
  }

  lemma {:induction false} JoinQuoteSafe(lines: seq<string>)
    requires forall i :: 0 <= i < |lines| ==> QuoteSafe(lines[i])
    ensures QuoteSafe(Join(lines, '\n'))
  {
    if |lines| > 1 {
      JoinQuoteSafe(lines[1..]);
    }
  }

  lemma {:induction false} QuoteSafeSplit(s: string)
    requires QuoteSafe(s)
    ensures forall i :: 0 <= i < |Split(s, '\n')| ==> QuoteSafe(Split(s, '\n')[i])
  {
    if s != "" {
      QuoteSafeSplit(s[1..]);
    }
  }

  lemma {:induction false} JoinEmptyLast(lines: seq<string>)
    requires lines != []
    ensures Join(lines + [""], '\n') == Join(lines, '\n') + "\n"
  {
    if |lines| == 1 {
      assert (lines + [""])[1..] == [""];
    } else {
      assert (lines + [""])[1..] == lines[1..] + [""];
      JoinEmptyLast(lines[1..]);
    }
  }

  lemma PlainJoins(a: string, b: string)
    requires Plain(a) && Plain(b)
    ensures Plain(a + b)
  {
  }

  lemma FirstTitleWordsArePlain(words: string)
    requires words == "title   Edge Microvisor "
    ensures Plain(words)
  {
  }

  lemma LastTitleWordsArePlain(words: string)
    requires words == "Toolkit Kernel Parameters"
    ensures Plain(words)
  {
  }

  lemma TitleWords(first: string, last: string)
    requires first == "title   Edge Microvisor " && last == "Toolkit Kernel Parameters"
    ensures TITLE == first + last
  {
  }

  lemma TitleIsPlain()
    ensures Plain(TITLE)
  {
    var first, last := "title   Edge Microvisor ", "Toolkit Kernel Parameters";
    FirstTitleWordsArePlain(first);
    LastTitleWordsArePlain(last);
    TitleWords(first, last);
    hide Plain;
    PlainJoins(first, last);
  }

  lemma FixedTextIsPlain()
    ensures Plain(LINUX) && Plain("options ") && Plain(" ") && Plain("# ") && Plain("")
  {
  }

  lemma OptionsArePlain(original: string, command: string)
    requires Plain(original) && Plain(command)
    ensures Plain("options " + original + " " + command)
  {
  }

  /** Echoing joined lines into a file and splitting the file again adds one empty line. */
  lemma EchoedLines(shell: Shell, lines: seq<string>)
    requires EchoesFaithfully(shell) && lines != []
    requires forall i :: 0 <= i < |lines| ==> Plain(lines[i])
    ensures Split(shell(Join(lines, '\n')), '\n') == lines + [""]
    ensures QuoteSafe(shell(Join(lines, '\n')))
  {
    JoinQuoteSafe(lines);
    JoinEmptyLast(lines);
    SplitOfJoin(lines + [""], '\n');
  }

  /** Reading the comment line back yields the original exactly when there is one. */
  lemma OriginalIsRecovered(original: string)
    requires OneLine(original)
    ensures Original("# " + original) == original <==> original != ""
  {
    var comment := "# " + original;
    if original == "" {
      assert comment[..1] == "#" && "#"[..1] == "#";
      assert TrimSpace(comment) == "#" by {
        assert TrimStart(comment, IsSpace) == comment;
        assert TrimEnd(comment, IsSpace) == TrimEnd("#", IsSpace);
      }
    } else {
      TrimFixesExactlyBare(comment, IsSpace);
      assert comment[2..] == original;
    }
  }

  lemma FirstUpdateShows(shell: Shell, u: KernelUpdate)
    requires EchoesFaithfully(shell) && Effective(u)
    requires OneLine(TrimSpace(u.procCmdline)) && Plain(u.efiFile)
    ensures Shows(AfterUpdate(shell, None, u), TrimSpace(u.procCmdline), u.command)
    ensures Boots(AfterUpdate(shell, None, u), u.efiFile)
    ensures QuoteSafe(AfterUpdate(shell, None, u).value)
  {
    var original := TrimSpace(u.procCmdline);
    TitleIsPlain();
    FixedTextIsPlain();
    OptionsArePlain(original, u.command);
    assert original != "" ==> Plain(original);
    EchoedLines(shell, [TITLE, LINUX + u.efiFile, "options " + original + " " + u.command, "# " + original, ""]);
  }

  /** Rewriting shows what the comment line yields, whatever the old options were. */
  lemma RewriteShows(shell: Shell, content: string, original: string, u: KernelUpdate)
    requires EchoesFaithfully(shell) && Effective(u) && OneLine(original) && QuoteSafe(content)
    requires |Split(content, '\n')| >= 4 && Split(content, '\n')[3] == "# " + original
    ensures
      var after := AfterUpdate(shell, Some(content), u);
      && after.Some? && QuoteSafe(after.value) && |Split(after.value, '\n')| >= 4
      && Split(after.value, '\n')[2] == "options " + Original("# " + original) + " " + u.command
      && Split(after.value, '\n') == OptionsFor(Split(content, '\n'), u.command) + [""]
      && (forall i :: 0 <= i < |Split(content, '\n')| && i != 2 ==>
            Split(after.value, '\n')[i] == Split(content, '\n')[i])
  {
    var lines := Split(content, '\n');
    QuoteSafeSplit(content);
    SplitPartsAreFree(content, '\n');
    OriginalIsRecovered(original);
    if original == "" {
      assert "# " + original == "# ";
      EmptyOriginalReadsHash();
    }
    assert Plain(Original("# " + original));
    FixedTextIsPlain();
    OptionsArePlain(Original("# " + original), u.command);
    EchoedLines(shell, OptionsFor(lines, u.command));
  }

  lemma EmptyOriginalReadsHash()
    ensures Original("# ") == "#"
  {
  }

  /** The last update in the list that took effect. */
  function LastEffective(updates: seq<KernelUpdate>): Option<KernelUpdate> {
    if updates == [] then None
    else if Effective(updates[|updates| - 1]) then Some(updates[|updates| - 1])
    else LastEffective(updates[..|updates| - 1])
  }

  /** The first update took effect, and the others took effect or changed nothing. */
  predicate History(updates: seq<KernelUpdate>) {
    && updates != [] && Effective(updates[0])
    && OneLine(TrimSpace(updates[0].procCmdline)) && Plain(updates[0].efiFile)
    && forall i :: 0 <= i < |updates| ==> updates[i].command == "" || !updates[i].copied || Effective(updates[i])
  }

  /**
   Kernel options never accumulate: after any updates the options line is the original
   command line plus the last command only, the fourth line still records the original, and title
   and kernel image are those of the first update.
   */
  lemma {:induction false} OptionsNeverAccumulate(shell: Shell, updates: seq<KernelUpdate>)
    requires EchoesFaithfully(shell) && History(updates) && TrimSpace(updates[0].procCmdline) != ""
    ensures LastEffective(updates).Some?
    ensures Shows(AfterUpdates(shell, updates), TrimSpace(updates[0].procCmdline), LastEffective(updates).value.command)
    ensures Boots(AfterUpdates(shell, updates), updates[0].efiFile)
    ensures QuoteSafe(AfterUpdates(shell, updates).value)
  {
    var init, last := updates[..|updates| - 1], updates[|updates| - 1];
    var original := TrimSpace(updates[0].procCmdline);
    if init == [] {
      FirstUpdateShows(shell, last);
    } else {
      OptionsNeverAccumulate(shell, init);
      if Effective(last) {
        OriginalIsRecovered(original);
        RewriteShows(shell, AfterUpdates(shell, init).value, original, last);
      }
    }
  }

  /** Without an original command line the second update already corrupts the options. */
  lemma EmptyOriginalIsLost(shell: Shell, first: KernelUpdate, second: KernelUpdate)
    requires EchoesFaithfully(shell) && History([first, second]) && Effective(second)
    requires TrimSpace(first.procCmdline) == ""
    ensures var file := AfterUpdates(shell, [first, second]);
            && file.Some? && |Split(file.value, '\n')| >= 4
            && Split(file.value, '\n')[2] == "options # " + second.command
            && !Shows(file, "", second.command)
  {
    TwoUpdates(shell, first, second);
    FirstUpdateShows(shell, first);
    assert TrimSpace(first.procCmdline) == "" && "# " + "" == "# ";
    RewriteShows(shell, AfterUpdate(shell, None, first).value, "", second);
    EmptyOriginalReadsHash();
    OptionsDiffer(second.command);
  }

  lemma TwoUpdates(shell: Shell, first: KernelUpdate, second: KernelUpdate)
    ensures AfterUpdates(shell, [first, second]) == AfterUpdate(shell, AfterUpdate(shell, None, first), second)
  {
    assert [first, second][..1] == [first] && [first][..0] == [];
    assert AfterUpdates(shell, [first]) == AfterUpdate(shell, None, first);
  }

  lemma OptionsDiffer(command: string)
    ensures "options " + "#" + " " + command == "options # " + command
    ensures "options # " + command != "options " + "" + " " + command
  {
  }

  // ----- The updater object -----

  class KernelUpdater {
    const shell: Shell
    var paramFile: Option<string>

    constructor (shell: Shell)
      ensures this.shell == shell && paramFile.None?
    {
      this.shell, paramFile := shell, None;
    }

    /** The loop over the listing stops at the first kernel image. */
    method FindEfiFile(lines: seq<string>) returns (efiFile: string)
      ensures efiFile == FirstEfiFile(lines)
    {
      for i := 0 to |lines|
        invariant FirstEfiFile(lines) == FirstEfiFile(lines[i..])
      {
        if IsEfiFile(lines[i]) {
          return lines[i];
        }
        assert lines[i..][1..] == lines[i + 1..];
      }
      return "";
    }

    /**
     The Edge Microvisor Toolkit branch of kernelUpdater.update, up to the copied file. Without a
     listed kernel image nothing is written.
     */
    method Update(command: string, procCmdline: string, efiListing: string, copied: bool) returns (ok: bool)
      modifies this`paramFile
      ensures var efiFile := FirstEfiFile(Split(TrimSpace(efiListing), '\n'));
              paramFile == AfterUpdate(shell, old(paramFile),
                                       KernelUpdate(command, procCmdline, efiFile, copied && efiFile != ""))
      ensures ok && command != "" ==> copied && paramFile.Some?
    {
      if command == "" {
        return true;
      }
      var currentCmdline := TrimSpace(procCmdline);
      var efiFile := FindEfiFile(Split(TrimSpace(efiListing), '\n'));
      if efiFile == "" {
        return false;
      }
      var fileContent;
      match paramFile {
        case None =>
          var newOptions := currentCmdline + " " + command;
          fileContent := Join([TITLE, LINUX + efiFile, "options " + newOptions, "# " + currentCmdline, ""], '\n');
          assert "options " + newOptions == "options " + currentCmdline + " " + command;
        case Some(existing) =>
          var lines := Split(existing, '\n');
          if |lines| < 4 {
            return false;
          }
          var originalCmdline := TrimPrefix(TrimSpace(lines[3]), "# ");
          var newOptions := originalCmdline + " " + command;
          assert "options " + newOptions == "options " + Original(lines[3]) + " " + command;
          lines := lines[2 := "options " + newOptions];
          fileContent := Join(lines, '\n');
      }
      if !copied {
        return false;
      }
      paramFile := Some(shell(fileContent));
      return true;
    }
  }
}
