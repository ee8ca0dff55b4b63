/** Rewriting a host user's authorized_keys file: push, revoke and read back. */
module AuthorizedKeys {
  import opened Prelude
  import opened KeyLines

  // ----- which lines count as keys -----

  /** Neither blank nor a comment. */
  predicate Active(line: string) {
    var stripped := Strip(line);
    stripped != "" && stripped[0] != '#'
  }

  function PrintOf(line: string, digest: Digest): Option<string> {
    if !Active(line) then None
    else match Fingerprint(Strip(line), digest)
         case Ok(name) => Some(name)
         case Err(_) => None
  }

  /** A comment line of the platform's own, which goes with the key below it. */
  predicate IsNote(line: string) {
    "# corelab" <= LeftStrip(line)
  }

  /** It is told by how it begins, whatever whitespace comes first. */
  lemma NotesBeginAlike(line: string)
    ensures IsNote(line) <==> exists n: nat :: n <= |line| && "# corelab" <= line[n..] && forall k :: 0 <= k < n ==> IsSpace(line[k])
  {
    var rest := LeftStrip(line);
    LeftStripDrops(line);
    if IsNote(line) {
      assert "# corelab" <= line[|line| - |rest|..];
    }
    forall n: nat | n <= |line| && "# corelab" <= line[n..] && forall k :: 0 <= k < n ==> IsSpace(line[k])
      ensures n == |line| - |rest|
    {
      assert line[n] == '#' && !IsSpace(line[n]);
      assert rest != "" ==> !IsSpace(line[|line| - |rest|]);
    }
  }

  lemma {:induction false} LeftStripDrops(s: string)
    ensures forall k :: 0 <= k < |s| - |LeftStrip(s)| ==> IsSpace(s[k])
  {
    if s != "" && IsSpace(s[0]) {
      LeftStripDrops(s[1..]);
      assert forall k :: 1 <= k < |s| ==> s[k] == s[1..][k - 1];
    }
  }

  predicate Holds(lines: seq<string>, name: string, digest: Digest) {
    exists k :: 0 <= k < |lines| && PrintOf(lines[k], digest) == Some(name)
  }

  // ----- push -----

  function SingleLine(value: string): Result<string, KeyError> {
    var stripped := Strip(value);
    if stripped == "" then Err(EmptyField)
    else if '\n' in stripped || '\r' in stripped || '\0' in stripped then Err(ManyLines)
    else Ok(stripped)
  }

  /** `_authorized_key_line`. */
  function KeyLine(publicKey: string, owner: string, digest: Digest): Result<string, KeyError> {
    match (SingleLine(publicKey), SingleLine(owner))
    case (Err(e), _) => Err(e)
    case (Ok(_), Err(e)) => Err(e)
    case (Ok(key), Ok(comment)) =>
      match Fingerprint(key, digest)
      case Err(e) => Err(e)
      case Ok(_) => Ok(key + " " + comment)
  }

  function PushLine(lines: seq<string>, line: string, name: string, digest: Digest): seq<string> {
    if Holds(lines, name, digest) then lines else lines + [line]
  }

  /** `_rewrite_authorized_keys_for_push`. */
  function PushText(text: string, line: string, digest: Digest): Result<string, KeyError> {
    match Fingerprint(line, digest)
    case Err(e) => Err(e)
    case Ok(name) => Ok(JoinLines(PushLine(SplitLines(text), line, name, digest)))
  }

  /** What `push` makes of the file: the key's own errors come before the label's. */
  function Pushed(text: string, publicKey: string, owner: string, digest: Digest): Result<string, KeyError> {
    match Fingerprint(publicKey, digest)
    case Err(e) => Err(e)
    case Ok(_) =>
      match KeyLine(publicKey, owner, digest)
      case Err(e) => Err(e)
      case Ok(line) => PushText(text, line, digest)
  }

  // ----- revoke -----

  function DropNote(kept: seq<string>): seq<string> {
    if kept != [] && IsNote(kept[|kept| - 1]) then kept[..|kept| - 1] else kept
  }

  function Kept(lines: seq<string>, name: string, digest: Digest): seq<string> {
    if lines == [] then []
    else
      var kept, line := Kept(lines[..|lines| - 1], name, digest), lines[|lines| - 1];
      if PrintOf(line, digest) == Some(name) then DropNote(kept) else kept + [line]
  }

  /** What `revoke` leaves in the file: nothing is rewritten when nothing was removed. */
  function Revoked(text: string, name: string, digest: Digest): string {
    if Holds(SplitLines(text), name, digest) then JoinLines(Kept(SplitLines(text), name, digest)) else text
  }

  // ----- read -----

  datatype Entry = Entry(lineNumber: nat, fingerprint: string, keyType: string, comment: Option<string>)

  function EntryOf(stripped: string, lineNumber: nat, digest: Digest): Result<Entry, KeyError> {
    var words := Words(Strip(stripped));
    if KeyTypeIndex(words) == |words| then Err(MissingBody)
    else match Fingerprint(stripped, digest)
         case Err(e) => Err(e)
         case Ok(name) => Ok(EntryFrom(words, name, lineNumber))
  }

  /** The key's type, and whatever follows its body as the comment. */
  function EntryFrom(words: seq<string>, name: string, lineNumber: nat): Entry
    requires KeyTypeIndex(words) < |words|
  {
    var i := KeyTypeIndex(words);
    var rest := words[i + 2..];
    Entry(lineNumber, name, words[i], if rest == [] then None else Some(Spaced(rest)))
  }

  function Entries(lines: seq<string>, digest: Digest): seq<Entry> {
    if lines == [] then []
    else
      var n := |lines|;
      var line := lines[n - 1];
      var init := Entries(lines[..n - 1], digest);
      if !Active(line) then init
      else match EntryOf(Strip(line), n, digest)
           case Ok(entry) => init + [entry]
           case Err(_) => init
  }

  function ActiveCount(lines: seq<string>): nat {
    if lines == [] then 0
    else ActiveCount(lines[..|lines| - 1]) + if Active(lines[|lines| - 1]) then 1 else 0
  }

  // ----- the file on the host -----

  /** One user's authorized_keys; a missing file reads as empty text. */
  class KeyFile {
    var text: string

    constructor (text: string)
      ensures this.text == text
    {
      this.text := text;
    }

    method Push(publicKey: string, owner: string, digest: Digest) returns (r: Result<string, KeyError>)
      modifies this
      ensures r.Ok? ==> r == Fingerprint(publicKey, digest)
      ensures match Pushed(old(text), publicKey, owner, digest)
              case Ok(desired) => r.Ok? && text == desired
              case Err(e) => r == Err(e) && text == old(text)
    {
      r := Fingerprint(publicKey, digest);
      if r.Err? {
        return;
      }
      var line := KeyLine(publicKey, owner, digest);
      if line.Err? {
        return Err(line.error);
      }
      var desired := PushText(text, line.value, digest);
      if desired.Err? {
        return Err(desired.error);
      }
      if desired.value != text {
        text := desired.value;
      }
    }

    method Revoke(name: string, digest: Digest) returns (revoked: bool)
      modifies this
      ensures revoked == Holds(SplitLines(old(text)), name, digest)
      ensures text == Revoked(old(text), name, digest)
    {
      var desired;
      desired, revoked := RewriteForRevoke(text, name, digest);
      if revoked && desired != text {
        text := desired;
      }
    }

    method Read(digest: Digest) returns (keys: seq<Entry>, lineCount: nat, invalid: nat)
      ensures keys == Entries(SplitLines(text), digest)
      ensures lineCount == ActiveCount(SplitLines(text)) == |keys| + invalid
    {
      keys, lineCount, invalid := Summarize(text, digest);
    }
  }

  method RewriteForRevoke(text: string, name: string, digest: Digest) returns (desired: string, removed: bool)
    ensures desired == JoinLines(Kept(SplitLines(text), name, digest))
    ensures removed == Holds(SplitLines(text), name, digest)
  {
    hide PrintOf, IsNote, SplitLines, JoinLines, Holds;
    var lines := SplitLines(text);
    var kept: seq<string> := [];
    removed := false;
    NothingHeld(name, digest);
    for k := 0 to |lines|
      invariant kept == Kept(lines[..k], name, digest)
      invariant removed <==> Holds(lines[..k], name, digest)
    {
      var line := lines[k];
      assert lines[..k + 1] == lines[..k] + [line];
      KeptAppend(lines[..k], line, name, digest);
      AppendHolds(lines[..k], line, name, digest);
      hide Kept;
      if PrintOf(line, digest) == Some(name) {
        removed := true;
        if kept != [] && IsNote(kept[|kept| - 1]) {
          kept := kept[..|kept| - 1];
        }
      } else {
        kept := kept + [line];
      }
    }
    assert lines[..|lines|] == lines;
    desired := JoinLines(kept);
  }

  lemma NothingHeld(name: string, digest: Digest)
    ensures !Holds([], name, digest)
  {
  }

  method Summarize(text: string, digest: Digest) returns (keys: seq<Entry>, lineCount: nat, invalid: nat)
    ensures keys == Entries(SplitLines(text), digest)
    ensures lineCount == ActiveCount(SplitLines(text)) == |keys| + invalid
  {
    hide Active, Strip, EntryOf, SplitLines;
    var lines := SplitLines(text);
    keys, lineCount, invalid := [], 0, 0;
    for k := 0 to |lines|
      invariant keys == Entries(lines[..k], digest)
      invariant lineCount == ActiveCount(lines[..k]) == |keys| + invalid
    {
      assert lines[..k + 1][..k] == lines[..k];
      if Active(lines[k]) {
        lineCount := lineCount + 1;
        var entry := EntryOf(Strip(lines[k]), k + 1, digest);
        if entry.Ok? {
          keys := keys + [entry.value];
        } else {
          invalid := invalid + 1;
        }
      }
    }
    assert lines[..|lines|] == lines;
  }

  // ----- what push promises -----

  /** A key whose text begins with a comment sign is written as a comment. */
  predicate Commented(publicKey: string) {
    "#" <= Strip(publicKey)
  }

  /** The pushed line is one line, its fingerprint is the key's whatever the label, and it is live unless the key is commented out. */
  lemma PushedLine(publicKey: string, owner: string, digest: Digest)
    requires KeyLine(publicKey, owner, digest).Ok?
    ensures var line := KeyLine(publicKey, owner, digest).value;
            && OneLine(line)
            && Fingerprint(line, digest) == Fingerprint(publicKey, digest)
            && Fingerprint(line, digest).Ok?
            && PrintOf(line, digest) == if Commented(publicKey) then None else Some(Fingerprint(publicKey, digest).value)
  {
    hide Words, KeyTypeIndex, Fingerprint, Strip;
    var key, comment := Strip(publicKey), Strip(owner);
    var line := key + " " + comment;
    FingerprintOfStrip(publicKey, digest);
    LabelsDoNotMatter(key, comment, digest);
    StripOfTight(line);
  }

  /** Something is left of the text once stripped, and it is one line. */
  predicate IsField(value: string) {
    var field := Strip(value);
    field != "" && forall k :: 0 <= k < |field| ==> field[k] != '\n' && field[k] != '\r' && field[k] != '\0'
  }

  lemma FieldsAreLines(value: string)
    ensures SingleLine(value) == if IsField(value) then Ok(Strip(value)) else Err(if Strip(value) == "" then EmptyField else ManyLines)
  {
    hide Strip;
  }

  /**
   A push is accepted exactly for a key with a fingerprint, itself one line, and a label that is one line. A key without
   a fingerprint is refused for that before anything else, and a key of many lines before its label is looked at.
   */
  lemma PushSucceedsExactly(text: string, publicKey: string, owner: string, digest: Digest)
    ensures var (pushed, found) := (Pushed(text, publicKey, owner, digest), Fingerprint(publicKey, digest));
      && (pushed.Ok? <==> found.Ok? && IsField(publicKey) && IsField(owner))
      && (found.Err? ==> pushed.Err? && pushed.error == found.error)
      && (found.Ok? && !IsField(publicKey) ==> pushed == Err(ManyLines))
      && (found.Ok? && IsField(publicKey) && !IsField(owner) ==>
            pushed == Err(if Strip(owner) == "" then EmptyField else ManyLines))
  {
    FieldsAreLines(publicKey);
    FieldsAreLines(owner);
    FingerprintOfStrip(publicKey, digest);
    if Strip(publicKey) == "" {
      NoKeyInNothing(publicKey, digest);
    }
    if KeyLine(publicKey, owner, digest).Ok? {
      PushedLine(publicKey, owner, digest);
    }
    hide Words, KeyTypeIndex, Fingerprint, Strip, SingleLine, IsField, Commented, OneLine, PrintOf, SplitLines, JoinLines, PushLine;
  }

  lemma NoKeyInNothing(publicKey: string, digest: Digest)
    requires Strip(publicKey) == ""
    ensures Fingerprint(publicKey, digest) == Err(MissingBody)
  {
    assert Words("") == [];
  }

  /** The fingerprints a file holds, in order and with repeats. */
  function Prints(lines: seq<string>, digest: Digest): seq<string> {
    if lines == [] then []
    else
      var init := Prints(lines[..|lines| - 1], digest);
      match PrintOf(lines[|lines| - 1], digest)
      case Some(name) => init + [name]
      case None => init
  }

  lemma {:induction false} PrintsAreHeld(lines: seq<string>, name: string, digest: Digest)
    ensures name in Prints(lines, digest) <==> Holds(lines, name, digest)
  {
    hide PrintOf;
    if lines != [] {
      var init := lines[..|lines| - 1];
      PrintsAreHeld(init, name, digest);
      assert lines == init + [lines[|lines| - 1]];
      assert forall k :: 0 <= k < |init| ==> lines[k] == init[k];
    }
  }

  /** Push keeps every old line, in place, and adds exactly the pushed fingerprint, once, unless it is already held. */
  lemma PushAddsOneKey(text: string, publicKey: string, owner: string, digest: Digest)
    requires Pushed(text, publicKey, owner, digest).Ok?
    ensures var before, after := SplitLines(text), SplitLines(Pushed(text, publicKey, owner, digest).value);
            var name := Fingerprint(publicKey, digest).value;
            && before <= after
            && Prints(after, digest) == Prints(before, digest) +
                                        (if Holds(before, name, digest) || Commented(publicKey) then [] else [name])
            && after == PushLine(before, KeyLine(publicKey, owner, digest).value, name, digest)
  {
    hide Words, KeyTypeIndex, Fingerprint, Strip, LeftStrip, RightStrip, KeyLine, PrintOf, Commented;
    PushedLine(publicKey, owner, digest);
    var before, line := SplitLines(text), KeyLine(publicKey, owner, digest).value;
    var name := Fingerprint(publicKey, digest).value;
    var after := PushLine(before, line, name, digest);
    SplitOfJoin(after);
    if !Holds(before, name, digest) {
      assert after[..|after| - 1] == before;
    }
  }

  /** Pushing again, under any label, changes nothing: exactly when the key was already held or is not commented out. */
  lemma PushIsIdempotentExactly(text: string, publicKey: string, owner: string, again: string, digest: Digest)
    requires Pushed(text, publicKey, owner, digest).Ok? && KeyLine(publicKey, again, digest).Ok?
    ensures var once := Pushed(text, publicKey, owner, digest).value;
            Pushed(once, publicKey, again, digest) == Ok(once)
            <==> Holds(SplitLines(text), Fingerprint(publicKey, digest).value, digest) || !Commented(publicKey)
  {
    hide Words, KeyTypeIndex, Fingerprint, Strip, LeftStrip, RightStrip, KeyLine, PrintOf, Commented;
    PushAddsOneKey(text, publicKey, owner, digest);
    PushedLine(publicKey, owner, digest);
    PushedLine(publicKey, again, digest);
    var name := Fingerprint(publicKey, digest).value;
    var before, once := SplitLines(text), Pushed(text, publicKey, owner, digest).value;
    PushAddsOneKey(once, publicKey, again, digest);
    PrintsAreHeld(before, name, digest);
    PrintsAreHeld(SplitLines(once), name, digest);
    var line := KeyLine(publicKey, again, digest).value;
    if Holds(SplitLines(once), name, digest) {
      assert once == JoinLines(SplitLines(once));
    } else {
      var twice := Pushed(once, publicKey, again, digest).value;
      assert |SplitLines(twice)| == |SplitLines(once)| + 1;
    }
  }

  /** A commented-out key is added again by every push, and never read back. */
  lemma CommentedKeyPilesUp(digest: Digest)
    requires digest("AAAA").Some?
    ensures var once := Pushed("", "# ssh-rsa AAAA", "ada", digest);
            && once.Ok?
            && Pushed(once.value, "# ssh-rsa AAAA", "ada", digest) != once
            && Prints(SplitLines(once.value), digest) == []
  {
    hide Fingerprint, KeyLine, Commented, Strip;
    ExampleKey(digest);
    PushedLine("# ssh-rsa AAAA", "ada", digest);
    PushAddsOneKey("", "# ssh-rsa AAAA", "ada", digest);
    PushIsIdempotentExactly("", "# ssh-rsa AAAA", "ada", "ada", digest);
  }

  lemma ExampleKey(digest: Digest)
    requires digest("AAAA").Some?
    ensures Fingerprint("# ssh-rsa AAAA", digest) == Ok(digest("AAAA").value)
    ensures KeyLine("# ssh-rsa AAAA", "ada", digest).Ok? && Commented("# ssh-rsa AAAA")
  {
    ExampleStrips();
    ExampleWords();
    ExampleKeyType();
    hide Words, KeyTypeIndex, Strip;
    assert Fingerprint("# ssh-rsa AAAA", digest) == Ok(digest("AAAA").value);
    hide Fingerprint;
  }

  lemma ExampleStrips()
    ensures Strip("# ssh-rsa AAAA") == "# ssh-rsa AAAA" && Strip("ada") == "ada"
  {
    hide Strip;
    StripOfTight("# ssh-rsa AAAA");
    StripOfTight("ada");
  }

  lemma ExampleKeyType()
    ensures KeyTypeIndex(["#", "ssh-rsa", "AAAA"]) == 1
  {
    hide KeyTypeIndex;
    var words := ["#", "ssh-rsa", "AAAA"];
    assert words[0][..1] == "#" && words[1][..4] == "ssh-";
    assert !IsKeyType(words[0]) && IsKeyType(words[1]);
  }

  lemma ExampleWords()
    ensures Words("# ssh-rsa AAAA") == ["#", "ssh-rsa", "AAAA"]
  {
    hide Words;
    OneWord("#");
    OneWord("ssh-rsa");
    OneWord("AAAA");
    WordsConcat("ssh-rsa", ' ', "AAAA");
    WordsConcat("#", ' ', "ssh-rsa AAAA");
    assert "#" + " " + "ssh-rsa AAAA" == "# ssh-rsa AAAA" && "ssh-rsa" + " " + "AAAA" == "ssh-rsa AAAA";
  }

  // ----- what revoke promises -----

  /** The lines that are no platform comment and hold none of `names`: other keys, other comments, blank and broken lines. */
  function Others(lines: seq<string>, names: set<string>, digest: Digest): seq<string> {
    if lines == [] then []
    else
      var line := lines[|lines| - 1];
      Others(lines[..|lines| - 1], names, digest) +
      if IsNote(line) || (PrintOf(line, digest).Some? && PrintOf(line, digest).value in names) then [] else [line]
  }

  function Count(lines: seq<string>, name: string, digest: Digest): nat {
    if lines == [] then 0
    else Count(lines[..|lines| - 1], name, digest) + if PrintOf(lines[|lines| - 1], digest) == Some(name) then 1 else 0
  }

  lemma NotesHoldNoKey(line: string, digest: Digest)
    requires IsNote(line)
    ensures PrintOf(line, digest) == None
  {
    var left := LeftStrip(line);
    var stripped := RightStrip(left);
    RightStripKeepsStart(left);
    assert stripped[0] == '#';
  }

  lemma {:induction false} RightStripKeepsStart(s: string)
    requires s != "" && !IsSpace(s[0])
    ensures RightStrip(s) != "" && RightStrip(s)[0] == s[0]
  {
    if IsSpace(s[|s| - 1]) {
      RightStripKeepsStart(s[..|s| - 1]);
    }
  }

  /**
   * Revoke leaves no line with the fingerprint, takes at most one platform comment with each,
   * and keeps every other line in order and multiplicity.
   */
  lemma {:induction false} RevokeRemovesOneKey(lines: seq<string>, name: string, names: set<string>, digest: Digest)
    requires name in names
    ensures !Holds(Kept(lines, name, digest), name, digest)
    ensures Others(Kept(lines, name, digest), names, digest) == Others(lines, names, digest)
    ensures var removed := Count(lines, name, digest);
            |lines| - 2 * removed <= |Kept(lines, name, digest)| <= |lines| - removed
  {
    hide PrintOf, IsNote;
    if lines != [] {
      var init, line := lines[..|lines| - 1], lines[|lines| - 1];
      RevokeRemovesOneKey(init, name, names, digest);
      var kept := Kept(init, name, digest);
      if PrintOf(line, digest) != Some(name) {
        assert (kept + [line])[..|kept|] == kept;
      }
    }
  }

  lemma PrintsAppend(lines: seq<string>, line: string, digest: Digest)
    ensures Prints(lines + [line], digest)
            == if PrintOf(line, digest).Some? then Prints(lines, digest) + [PrintOf(line, digest).value] else Prints(lines, digest)
  {
    hide PrintOf;
    assert (lines + [line])[..|lines|] == lines;
  }

  /** The platform comment that goes with a key carries no fingerprint. */
  lemma DropNoteKeepsPrints(kept: seq<string>, digest: Digest)
    ensures Prints(DropNote(kept), digest) == Prints(kept, digest)
  {
    hide PrintOf, IsNote;
    if kept != [] && IsNote(kept[|kept| - 1]) {
      NotesHoldNoKey(kept[|kept| - 1], digest);
    }
  }

  lemma {:induction false} RevokeKeepsOtherPrints(lines: seq<string>, name: string, digest: Digest)
    ensures Prints(Kept(lines, name, digest), digest) == Except(Prints(lines, digest), name)
    decreases |lines|
  {
    if lines != [] {
      var init, line := lines[..|lines| - 1], lines[|lines| - 1];
      assert lines == init + [line];
      RevokeKeepsOtherPrints(init, name, digest);
      hide PrintOf, IsNote, Kept, Prints, DropNote, Except;
      KeptAppend(init, line, name, digest);
      PrintsAppend(init, line, digest);
      PrintsAppend(Kept(init, name, digest), line, digest);
      DropNoteKeepsPrints(Kept(init, name, digest), digest);
      if PrintOf(line, digest).Some? {
        ExceptLast(Prints(init, digest), PrintOf(line, digest).value, name);
      }
    }
  }

  function Except(names: seq<string>, name: string): (r: seq<string>)
    ensures name !in r
    ensures forall other :: other != name ==> (other in r <==> other in names)
  {
    if names == [] then []
    else Except(names[..|names| - 1], name) + if names[|names| - 1] == name then [] else [names[|names| - 1]]
  }

  lemma ExceptLast(names: seq<string>, last: string, name: string)
    ensures Except(names + [last], name) == Except(names, name) + if last == name then [] else [last]
  {
    assert (names + [last])[..|names|] == names;
  }

  lemma {:induction false} NothingToRevoke(lines: seq<string>, name: string, digest: Digest)
    requires !Holds(lines, name, digest)
    ensures Kept(lines, name, digest) == lines
  {
    hide PrintOf, IsNote;
    if lines != [] {
      var init := lines[..|lines| - 1];
      assert PrintOf(lines[|lines| - 1], digest) != Some(name);
      assert forall k :: 0 <= k < |init| ==> lines[k] == init[k];
      NothingToRevoke(init, name, digest);
    }
  }

  /** Revoking twice is revoking once. */
  lemma RevokeIsIdempotent(text: string, name: string, digest: Digest)
    ensures var once := Revoked(text, name, digest);
            !Holds(SplitLines(once), name, digest) && Revoked(once, name, digest) == once
  {
    hide PrintOf, IsNote;
    var lines := SplitLines(text);
    if Holds(lines, name, digest) {
      KeptAreLines(lines, name, digest);
      SplitOfJoin(Kept(lines, name, digest));
      RevokeRemovesOneKey(lines, name, {name}, digest);
    }
  }

  lemma KeptAppend(lines: seq<string>, line: string, name: string, digest: Digest)
    ensures Kept(lines + [line], name, digest)
            == if PrintOf(line, digest) == Some(name) then DropNote(Kept(lines, name, digest)) else Kept(lines, name, digest) + [line]
  {
    hide PrintOf, DropNote;
    assert (lines + [line])[..|lines|] == lines;
  }

  lemma {:induction false} KeptAreLines(lines: seq<string>, name: string, digest: Digest)
    requires forall k :: 0 <= k < |lines| ==> OneLine(lines[k])
    ensures forall k :: 0 <= k < |Kept(lines, name, digest)| ==> OneLine(Kept(lines, name, digest)[k])
  {
    hide PrintOf, IsNote;
    if lines != [] {
      KeptAreLines(lines[..|lines| - 1], name, digest);
    }
  }

  /**
   * Revoking a newly pushed key gives back the original lines exactly when the key is not
   * commented out and the last original line is no platform comment.
   */
  lemma RevokeUndoesPushExactly(text: string, publicKey: string, owner: string, digest: Digest)
    requires Pushed(text, publicKey, owner, digest).Ok?
    requires !Holds(SplitLines(text), Fingerprint(publicKey, digest).value, digest)
    ensures var before, name := SplitLines(text), Fingerprint(publicKey, digest).value;
            var back := SplitLines(Revoked(Pushed(text, publicKey, owner, digest).value, name, digest));
            back == before <==> !Commented(publicKey) && !(before != [] && IsNote(before[|before| - 1]))
  {
    hide Words, KeyTypeIndex, Fingerprint, Strip, LeftStrip, RightStrip, KeyLine, PrintOf, Commented, IsNote;
    PushAddsOneKey(text, publicKey, owner, digest);
    PushedLine(publicKey, owner, digest);
    var before, name := SplitLines(text), Fingerprint(publicKey, digest).value;
    var line, pushed := KeyLine(publicKey, owner, digest).value, Pushed(text, publicKey, owner, digest).value;
    var after := SplitLines(pushed);
    NothingToRevoke(before, name, digest);
    KeptAppend(before, line, name, digest);
    KeptAreLines(after, name, digest);
    SplitOfJoin(Kept(after, name, digest));
    hide Kept;
    if Commented(publicKey) {
      AppendHolds(before, line, name, digest);
    } else {
      assert PrintOf(after[|before|], digest) == Some(name);
    }
  }

  lemma AppendHolds(lines: seq<string>, line: string, name: string, digest: Digest)
    ensures Holds(lines + [line], name, digest) <==> Holds(lines, name, digest) || PrintOf(line, digest) == Some(name)
  {
    hide PrintOf;
    var all := lines + [line];
    assert all[|lines|] == line && forall k :: 0 <= k < |lines| ==> all[k] == lines[k];
  }

  // ----- what reading back promises -----

  function Names(entries: seq<Entry>): seq<string> {
    if entries == [] then [] else Names(entries[..|entries| - 1]) + [entries[|entries| - 1].fingerprint]
  }

  lemma EntryIsPrint(line: string, lineNumber: nat, digest: Digest)
    ensures var entry := EntryOf(Strip(line), lineNumber, digest);
            if Active(line) && entry.Ok?
            then PrintOf(line, digest) == Some(entry.value.fingerprint) && entry.value.lineNumber == lineNumber
            else PrintOf(line, digest) == None
  {
    hide Words, KeyTypeIndex, Strip;
  }

  /** The entry's line is there and carries the entry's fingerprint. */
  predicate InPlace(lines: seq<string>, e: Entry, digest: Digest) {
    1 <= e.lineNumber <= |lines| && PrintOf(lines[e.lineNumber - 1], digest) == Some(e.fingerprint)
  }

  /** The last line adds one entry, on its own line number, exactly when it carries a fingerprint. */
  lemma LastLineReads(lines: seq<string>, digest: Digest) returns (e: Entry)
    requires lines != []
    ensures var n := |lines|;
            var before, found := Entries(lines[..n - 1], digest), PrintOf(lines[n - 1], digest);
            && Entries(lines, digest) == (if found.Some? then before + [e] else before)
            && (found.Some? ==> e.lineNumber == n && e.fingerprint == found.value && InPlace(lines, e, digest))
  {
    hide PrintOf, EntryOf, Active, Strip;
    var n := |lines|;
    EntryIsPrint(lines[n - 1], n, digest);
    var read := EntryOf(Strip(lines[n - 1]), n, digest);
    e := if read.Ok? then read.value else Entry(0, "", "", None);
  }

  /** Reading back lists exactly the fingerprints that push and revoke see, in file order. */
  lemma {:induction false} ReadbackAgrees(lines: seq<string>, digest: Digest)
    ensures Names(Entries(lines, digest)) == Prints(lines, digest)
  {
    hide PrintOf;
    if lines != [] {
      var before := Entries(lines[..|lines| - 1], digest);
      ReadbackAgrees(lines[..|lines| - 1], digest);
      var e := LastLineReads(lines, digest);
      hide Entries;
      NamesAppend(before, e);
    }
  }

  lemma NamesAppend(entries: seq<Entry>, e: Entry)
    ensures Names(entries + [e]) == Names(entries) + [e.fingerprint]
  {
    assert (entries + [e])[..|entries|] == entries;
  }

  predicate AllInPlace(lines: seq<string>, read: seq<Entry>, digest: Digest) {
    forall i :: 0 <= i < |read| ==> InPlace(lines, read[i], digest)
  }

  predicate InOrder(read: seq<Entry>) {
    forall i, j :: 0 <= i < j < |read| ==> read[i].lineNumber < read[j].lineNumber
  }

  /** Every entry names its own line, and the lines come in order. */
  lemma {:induction false} ReadbackNamesLines(lines: seq<string>, digest: Digest)
    ensures AllInPlace(lines, Entries(lines, digest), digest) && InOrder(Entries(lines, digest))
  {
    if lines != [] {
      ReadbackNamesLines(lines[..|lines| - 1], digest);
      var e := LastLineReads(lines, digest);
      MoreInPlace(lines, Entries(lines[..|lines| - 1], digest), e, digest);
      hide Entries, PrintOf, InPlace, AllInPlace, InOrder;
    }
  }

  lemma MoreInPlace(lines: seq<string>, before: seq<Entry>, e: Entry, digest: Digest)
    requires lines != [] && InOrder(before) && AllInPlace(lines[..|lines| - 1], before, digest)
    ensures InOrder(before) && AllInPlace(lines, before, digest)
    ensures e.lineNumber == |lines| && InPlace(lines, e, digest) ==> InOrder(before + [e]) && AllInPlace(lines, before + [e], digest)
  {
    hide PrintOf;
    forall i | 0 <= i < |before|
      ensures InPlace(lines, before[i], digest) && before[i].lineNumber < |lines|
    {
      assert InPlace(lines[..|lines| - 1], before[i], digest);
    }
    hide InPlace;
  }

  /** The entry of a key line with these words, followed by these further words. */
  function LabelledEntry(words: seq<string>, more: seq<string>, name: string, lineNumber: nat): Entry
    requires KeyTypeIndex(words) < |words|
  {
    var i := KeyTypeIndex(words);
    Entry(lineNumber, name, words[i], Some(Spaced(words[i + 2..] + more)))
  }

  /** A newly pushed key reads back as the last entry, on the last line, with its label at the end of the comment. */
  lemma PushReadsBack(text: string, publicKey: string, owner: string, digest: Digest)
    requires Pushed(text, publicKey, owner, digest).Ok? && !Commented(publicKey)
    requires !Holds(SplitLines(text), Fingerprint(publicKey, digest).value, digest)
    ensures KeyTypeIndex(Words(publicKey)) < |Words(publicKey)|
    ensures var before, after := SplitLines(text), SplitLines(Pushed(text, publicKey, owner, digest).value);
            Entries(after, digest) == Entries(before, digest) +
            [LabelledEntry(Words(publicKey), Words(owner), Fingerprint(publicKey, digest).value, |before| + 1)]
  {
    hide Words, KeyTypeIndex, Fingerprint, Strip, LeftStrip, RightStrip, KeyLine, PrintOf, Commented, EntryOf, Spaced, Active, LabelledEntry;
    PushAddsOneKey(text, publicKey, owner, digest);
    PushedLine(publicKey, owner, digest);
    var before, line := SplitLines(text), KeyLine(publicKey, owner, digest).value;
    var after := before + [line];
    assert after[..|after| - 1] == before;
    EntryIsPrint(line, |after|, digest);
    KeyLineIs(publicKey, owner, digest);
    PushedEntry(Strip(publicKey), Strip(owner), |after|, digest);
  }

  lemma KeyLineIs(publicKey: string, owner: string, digest: Digest)
    requires KeyLine(publicKey, owner, digest).Ok?
    ensures KeyLine(publicKey, owner, digest).value == Strip(publicKey) + " " + Strip(owner)
    ensures Fingerprint(Strip(publicKey), digest).Ok? && Fingerprint(Strip(publicKey), digest) == Fingerprint(publicKey, digest)
    ensures Words(Strip(publicKey)) == Words(publicKey) && Words(Strip(owner)) == Words(owner) && Words(owner) != []
  {
    hide Words, KeyTypeIndex, Fingerprint, Strip;
    FingerprintOfStrip(publicKey, digest);
    StripKeepsWords(publicKey);
    StripKeepsWords(owner);
    SomeWord(Strip(owner));
  }

  /** The words of a key line are the key's words and then the label's, however often it is stripped. */
  lemma LineWords(key: string, comment: string)
    ensures Words(Strip(Strip(key + " " + comment))) == Words(key) + Words(comment)
  {
    hide Words, Strip;
    var line := key + " " + comment;
    StripKeepsWords(line);
    StripKeepsWords(Strip(line));
    WordsConcat(key, ' ', comment);
  }

  lemma EntryOfWords(stripped: string, words: seq<string>, more: seq<string>, lineNumber: nat, digest: Digest)
    requires Words(Strip(stripped)) == words + more && more != []
    requires KeyTypeIndex(words) < |words| && Fingerprint(stripped, digest).Ok?
    ensures EntryOf(stripped, lineNumber, digest)
            == Ok(LabelledEntry(words, more, Fingerprint(stripped, digest).value, lineNumber))
  {
    hide Words, Strip, KeyTypeIndex, Fingerprint, EntryFrom, LabelledEntry;
    EntryFromMore(words, more, Fingerprint(stripped, digest).value, lineNumber);
  }

  lemma EntryFromMore(words: seq<string>, more: seq<string>, name: string, lineNumber: nat)
    requires KeyTypeIndex(words) < |words| && more != []
    ensures KeyTypeIndex(words + more) < |words + more|
    ensures EntryFrom(words + more, name, lineNumber) == LabelledEntry(words, more, name, lineNumber)
  {
    hide KeyTypeIndex, Spaced;
    KeyTypeIndexGrows(words, more);
    PastTheFront(words, more, KeyTypeIndex(words) + 2);
  }

  lemma PastTheFront(words: seq<string>, more: seq<string>, n: nat)
    requires 2 <= n <= |words|
    ensures (words + more)[n..] == words[n..] + more && (words + more)[n - 2] == words[n - 2]
    ensures more != [] ==> words[n..] + more != []
  {
  }

  lemma FingerprintNeedsKeyType(key: string, digest: Digest)
    requires Fingerprint(key, digest).Ok?
    ensures KeyTypeIndex(Words(key)) < |Words(key)| && Fingerprint(key, digest) != Err(MissingBody)
  {
    hide Words, Strip, KeyTypeIndex;
    StripKeepsWords(key);
  }

  lemma PushedEntry(key: string, comment: string, lineNumber: nat, digest: Digest)
    requires Fingerprint(key, digest).Ok? && Words(comment) != []
    ensures KeyTypeIndex(Words(key)) < |Words(key)|
    ensures EntryOf(Strip(key + " " + comment), lineNumber, digest)
            == Ok(LabelledEntry(Words(key), Words(comment), Fingerprint(key, digest).value, lineNumber))
  {
    hide Words, KeyTypeIndex, Strip, Fingerprint, EntryOf, LabelledEntry;
    var line := key + " " + comment;
    FingerprintNeedsKeyType(key, digest);
    LabelsDoNotMatter(key, comment, digest);
    FingerprintOfStrip(line, digest);
    LineWords(key, comment);
    EntryOfWords(Strip(line), Words(key), Words(comment), lineNumber, digest);
  }

  lemma SomeWord(s: string)
    requires s != "" && !IsSpace(s[0])
    ensures Words(s) != []
  {
  }

  // ----- whole histories of a file -----

  datatype Edit = Grant(publicKey: string, owner: string) | Withdraw(name: string)

  /** A refused push leaves the file alone. */
  function Edited(text: string, edit: Edit, digest: Digest): string {
    match edit
    case Withdraw(name) => Revoked(text, name, digest)
    case Grant(publicKey, owner) =>
      match Pushed(text, publicKey, owner, digest)
      case Ok(desired) => desired
      case Err(_) => text
  }

  function After(text: string, edits: seq<Edit>, digest: Digest): string {
    if edits == [] then text
    else Edited(After(text, edits[..|edits| - 1], digest), edits[|edits| - 1], digest)
  }

  /** Whether the last edit about `name` granted it. */
  function LastSays(before: bool, edits: seq<Edit>, name: string, digest: Digest): bool {
    if edits == [] then before
    else
      var edit := edits[|edits| - 1];
      if edit == Withdraw(name) then false
      else if edit.Grant? && Grants(edit, name, digest) then true
      else LastSays(before, edits[..|edits| - 1], name, digest)
  }

  predicate Grants(edit: Edit, name: string, digest: Digest)
    requires edit.Grant?
  {
    && !Commented(edit.publicKey)
    && KeyLine(edit.publicKey, edit.owner, digest).Ok?
    && Fingerprint(edit.publicKey, digest) == Ok(name)
  }

  /** After any history a key is in the file exactly when the last edit about it granted it, or none was and it was there at first. */
  lemma {:induction false} FileFollowsLastEdit(text: string, edits: seq<Edit>, name: string, digest: Digest)
    ensures Holds(SplitLines(After(text, edits, digest)), name, digest)
            <==> LastSays(Holds(SplitLines(text), name, digest), edits, name, digest)
  {
    if edits != [] {
      var before := After(text, edits[..|edits| - 1], digest);
      FileFollowsLastEdit(text, edits[..|edits| - 1], name, digest);
      EditChangesOnlyItsKey(before, edits[|edits| - 1], name, digest);
    }
  }

  lemma EditChangesOnlyItsKey(text: string, edit: Edit, name: string, digest: Digest)
    ensures Holds(SplitLines(Edited(text, edit, digest)), name, digest)
            <==> if edit == Withdraw(name) then false
                 else if edit.Grant? && Grants(edit, name, digest) then true
                 else Holds(SplitLines(text), name, digest)
  {
    hide Words, KeyTypeIndex, Fingerprint, Strip, LeftStrip, RightStrip, KeyLine, PrintOf, Commented, IsNote;
    var lines, after := SplitLines(text), SplitLines(Edited(text, edit, digest));
    PrintsAreHeld(lines, name, digest);
    PrintsAreHeld(after, name, digest);
    match edit {
      case Withdraw(gone) =>
        if Holds(lines, gone, digest) {
          KeptAreLines(lines, gone, digest);
          SplitOfJoin(Kept(lines, gone, digest));
          RevokeKeepsOtherPrints(lines, gone, digest);
        }
      case Grant(publicKey, owner) =>
        if KeyLine(publicKey, owner, digest).Ok? {
          PushedLine(publicKey, owner, digest);
          PushAddsOneKey(text, publicKey, owner, digest);
        }
    }
  }

  function Named(edits: seq<Edit>, digest: Digest): set<string> {
    if edits == [] then {}
    else
      Named(edits[..|edits| - 1], digest) +
      match edits[|edits| - 1]
      case Withdraw(name) => {name}
      case Grant(publicKey, _) =>
        match Fingerprint(publicKey, digest)
        case Ok(name) => {name}
        case Err(_) => {}
  }

  /** Lines no edit names, other than the platform's comments, come through any history in order and multiplicity. */
  lemma {:induction false} BystandersStay(text: string, edits: seq<Edit>, names: set<string>, digest: Digest)
    requires Named(edits, digest) <= names
    requires forall k :: 0 <= k < |edits| && edits[k].Grant? ==> !Commented(edits[k].publicKey)
    ensures Others(SplitLines(After(text, edits, digest)), names, digest) == Others(SplitLines(text), names, digest)
  {
    hide Words, KeyTypeIndex, Fingerprint, Strip, LeftStrip, RightStrip, KeyLine, PrintOf, Commented, IsNote;
    if edits != [] {
      var init, edit := edits[..|edits| - 1], edits[|edits| - 1];
      assert forall k :: 0 <= k < |init| ==> init[k] == edits[k];
      BystandersStay(text, init, names, digest);
      var before := After(text, init, digest);
      var lines := SplitLines(before);
      match edit {
        case Withdraw(name) =>
          if Holds(lines, name, digest) {
            KeptAreLines(lines, name, digest);
            SplitOfJoin(Kept(lines, name, digest));
            RevokeRemovesOneKey(lines, name, names, digest);
          }
        case Grant(publicKey, owner) =>
          if Pushed(before, publicKey, owner, digest).Ok? {
            PushedLine(publicKey, owner, digest);
            PushAddsOneKey(before, publicKey, owner, digest);
            var after := SplitLines(Edited(before, edit, digest));
            if after != lines {
              assert after[..|after| - 1] == lines;
            }
          }
      }
    }
  }
}
