/** Text as authorized_keys sees it: whitespace, words, lines, and the fingerprint of a line. */
module KeyLines {
  import opened Prelude

  // ----- whitespace and words -----

  /** The characters Python's `str.split()` and `str.strip()` treat as whitespace. */
  predicate IsSpace(c: char) {
    c == ' ' || '\U{09}' <= c <= '\U{0D}' || '\U{1C}' <= c <= '\U{1F}' || c == '\U{85}' || c == '\U{A0}' ||
    c == '\U{1680}' || '\U{2000}' <= c <= '\U{200A}' || c == '\U{2028}' || c == '\U{2029}' ||
    c == '\U{202F}' || c == '\U{205F}' || c == '\U{3000}'
  }

  function LeftStrip(s: string): (r: string)
    ensures r != "" ==> !IsSpace(r[0])
    ensures |r| <= |s| && r == s[|s| - |r|..]
  {
    if s != "" && IsSpace(s[0]) then LeftStrip(s[1..]) else s
  }

  function RightStrip(s: string): (r: string)
    ensures r != "" ==> !IsSpace(r[|r| - 1])
    ensures r <= s
  {
    if s != "" && IsSpace(s[|s| - 1]) then RightStrip(s[..|s| - 1]) else s
  }

  function Strip(s: string): (r: string)
    ensures r != "" ==> !IsSpace(r[0]) && !IsSpace(r[|r| - 1])
  {
    RightStrip(LeftStrip(s))
  }

  function WordLength(s: string): (n: nat)
    ensures n <= |s| && (forall k :: 0 <= k < n ==> !IsSpace(s[k])) && (n < |s| ==> IsSpace(s[n]))
  {
    if s == "" || IsSpace(s[0]) then 0 else 1 + WordLength(s[1..])
  }

  /** `s.split()`. */
  function Words(s: string): seq<string>
    decreases |s|
  {
    if s == "" then []
    else if IsSpace(s[0]) then Words(s[1..])
    else [s[..WordLength(s)]] + Words(s[WordLength(s)..])
  }

  /** `" ".join(words)`. */
  function Spaced(words: seq<string>): string {
    if words == [] then "" else if |words| == 1 then words[0] else words[0] + " " + Spaced(words[1..])
  }

  lemma WordLengthIs(s: string, n: nat)
    requires n <= |s| && (forall k :: 0 <= k < n ==> !IsSpace(s[k])) && (n < |s| ==> IsSpace(s[n]))
    ensures WordLength(s) == n
  {
  }

  lemma OneWord(s: string)
    requires s != "" && forall k :: 0 <= k < |s| ==> !IsSpace(s[k])
    ensures Words(s) == [s]
  {
    WordLengthIs(s, |s|);
    assert s[..|s|] == s && Words(s[|s|..]) == [];
  }

  /** Splitting at a whitespace character splits the words. */
  lemma {:induction false} WordsConcat(a: string, c: char, b: string)
    requires IsSpace(c)
    ensures Words(a + [c] + b) == Words(a) + Words(b)
    decreases |a|
  {
    var s := a + [c] + b;
    if a == "" {
      assert s[1..] == b;
    } else if IsSpace(a[0]) {
      assert s[1..] == a[1..] + [c] + b;
      WordsConcat(a[1..], c, b);
    } else {
      var n := WordLength(a);
      assert forall k :: 0 <= k < n ==> s[k] == a[k];
      WordLengthIs(s, n);
      assert s[..n] == a[..n] && s[n..] == a[n..] + [c] + b;
      WordsConcat(a[n..], c, b);
    }
  }

  lemma {:induction false} LeftStripKeepsWords(s: string)
    ensures Words(LeftStrip(s)) == Words(s)
  {
    if s != "" && IsSpace(s[0]) {
      LeftStripKeepsWords(s[1..]);
    }
  }

  lemma {:induction false} RightStripKeepsWords(s: string)
    ensures Words(RightStrip(s)) == Words(s)
  {
    assert Words("") == [];
    hide Words;
    if s != "" && IsSpace(s[|s| - 1]) {
      var front, last := s[..|s| - 1], s[|s| - 1];
      RightStripKeepsWords(front);
      hide RightStrip;
      WordsConcat(front, last, "");
      assert s == front + [last] + "";
    }
  }

  lemma StripKeepsWords(s: string)
    ensures Words(Strip(s)) == Words(s)
  {
    LeftStripKeepsWords(s);
    RightStripKeepsWords(LeftStrip(s));
  }

  lemma StripOfTight(s: string)
    requires s != "" && !IsSpace(s[0]) && !IsSpace(s[|s| - 1])
    ensures Strip(s) == s
  {
  }

  // ----- lines -----

  function LineLength(text: string): (n: nat)
    ensures n <= |text| && (forall k :: 0 <= k < n ==> text[k] != '\n') && (n < |text| ==> text[n] == '\n')
  {
    if text == "" || text[0] == '\n' then 0 else 1 + LineLength(text[1..])
  }

  /** `text.splitlines()`: a final line terminator opens no further line. */
  function SplitLines(text: string): (lines: seq<string>)
    ensures forall k :: 0 <= k < |lines| ==> OneLine(lines[k])
    decreases |text|
  {
    var n := LineLength(text);
    if text == "" then []
    else if n == |text| then [text]
    else [text[..n]] + SplitLines(text[n + 1..])
  }

  /** `_join_authorized_key_lines`: every line is terminated. */
  function JoinLines(lines: seq<string>): string {
    if lines == [] then "" else lines[0] + "\n" + JoinLines(lines[1..])
  }

  predicate OneLine(s: string) {
    '\n' !in s
  }

  lemma LineLengthIs(text: string, n: nat)
    requires n < |text| && (forall k :: 0 <= k < n ==> text[k] != '\n') && text[n] == '\n'
    ensures LineLength(text) == n
  {
  }

  /** A first line and its terminator come off whole. */
  lemma FirstLine(line: string, rest: string)
    requires OneLine(line)
    ensures SplitLines(line + "\n" + rest) == [line] + SplitLines(rest)
  {
    var text, n := line + "\n" + rest, |line|;
    assert forall k :: 0 <= k < n ==> text[k] == line[k];
    LineLengthIs(text, n);
    assert text[..n] == line && text[n + 1..] == rest;
  }

  /** The lines of a file the agent wrote are the lines it wrote. */
  lemma {:induction false} SplitOfJoin(lines: seq<string>)
    requires forall k :: 0 <= k < |lines| ==> OneLine(lines[k])
    ensures SplitLines(JoinLines(lines)) == lines
  {
    if lines != [] {
      hide SplitLines, OneLine;
      SplitOfJoin(lines[1..]);
      FirstLine(lines[0], JoinLines(lines[1..]));
      assert lines == [lines[0]] + lines[1..];
    }
  }

  /** What is written back for a text: it, with the missing final newline. */
  function Terminated(text: string): string {
    if text == "" || text[|text| - 1] == '\n' then text else text + "\n"
  }

  lemma TerminatedRest(text: string, n: nat)
    requires n < |text| && text[n] == '\n'
    ensures text[..n] + "\n" + Terminated(text[n + 1..]) == Terminated(text)
  {
    var rest := text[n + 1..];
    assert text == text[..n] + "\n" + rest;
    assert rest != "" ==> rest[|rest| - 1] == text[|text| - 1];
  }

  /** Rewriting an unchanged file at most adds the missing final newline. */
  lemma {:induction false} JoinOfSplit(text: string)
    ensures JoinLines(SplitLines(text)) == Terminated(text)
    decreases |text|
  {
    var n := LineLength(text);
    if text == "" {
    } else if n == |text| {
      assert JoinLines([text]) == text + "\n" + JoinLines([]);
    } else {
      JoinOfSplit(text[n + 1..]);
      TerminatedRest(text, n);
      JoinFirst(text[..n], SplitLines(text[n + 1..]));
      hide JoinLines, Terminated;
    }
  }

  lemma JoinFirst(line: string, lines: seq<string>)
    ensures JoinLines([line] + lines) == line + "\n" + JoinLines(lines)
  {
    assert ([line] + lines)[1..] == lines;
  }

  // ----- the fingerprint of a line -----

  datatype KeyError = MissingBody | BadBase64 | EmptyField | ManyLines

  /** Base64 decoding, SHA-256 and the printed form in one: None where decoding fails. */
  type Digest = string -> Option<string>

  predicate IsKeyType(word: string) {
    "ssh-" <= word || "ecdsa-" <= word || "sk-" <= word || "rsa-sha2-" <= word
  }

  /** The first word that names a key type and is not the last word, or the number of words. */
  function KeyTypeIndex(words: seq<string>): (i: nat)
    ensures i <= |words|
    ensures i < |words| <==> exists k :: 0 <= k < |words| - 1 && IsKeyType(words[k])
    ensures i < |words| ==> i < |words| - 1 && IsKeyType(words[i])
    ensures forall k :: 0 <= k < i && k < |words| - 1 ==> !IsKeyType(words[k])
  {
    if |words| <= 1 then |words|
    else if IsKeyType(words[0]) then 0
    else
      var i := KeyTypeIndex(words[1..]);
      assert forall k :: 1 <= k < |words| ==> words[k] == words[1..][k - 1];
      1 + i
  }

  /** `_fingerprint_for_pubkey`. */
  function Fingerprint(line: string, digest: Digest): Result<string, KeyError> {
    var words := Words(Strip(line));
    var i := KeyTypeIndex(words);
    if i == |words| then Err(MissingBody)
    else match digest(words[i + 1])
         case None => Err(BadBase64)
         case Some(name) => Ok(name)
  }

  lemma KeyTypeIndexGrows(words: seq<string>, more: seq<string>)
    requires KeyTypeIndex(words) < |words|
    ensures KeyTypeIndex(words + more) == KeyTypeIndex(words)
  {
    var i, j := KeyTypeIndex(words), KeyTypeIndex(words + more);
    assert (words + more)[i] == words[i];
    assert forall k :: 0 <= k < i ==> (words + more)[k] == words[k];
  }

  /** What follows the key, after whitespace, never changes its fingerprint. */
  lemma LabelsDoNotMatter(key: string, owner: string, digest: Digest)
    requires Fingerprint(key, digest) != Err(MissingBody)
    ensures Fingerprint(key + " " + owner, digest) == Fingerprint(key, digest)
  {
    hide Words, Strip, KeyTypeIndex;
    var line := key + " " + owner;
    StripKeepsWords(key);
    StripKeepsWords(line);
    WordsConcat(key, ' ', owner);
    var words := Words(key);
    KeyTypeIndexGrows(words, Words(owner));
  }

  /** Stripping a line never changes its fingerprint. */
  lemma FingerprintOfStrip(line: string, digest: Digest)
    ensures Fingerprint(Strip(line), digest) == Fingerprint(line, digest)
  {
    StripKeepsWords(line);
    StripKeepsWords(Strip(line));
  }
}
