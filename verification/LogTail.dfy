/** The bounded log tail a reservation keeps of its script's output. */
module LogTail {
  import opened Prelude

  datatype Tail = Tail(text: Option<string>, truncated: bool)

  const EMPTY := Tail(None, false)

  /** Python's `s[-n:]`: the slice from -0 is the whole string. */
  function FromEnd(s: string, n: nat): string {
    if n == 0 || |s| <= n then s else s[|s| - n..]
  }

  function Appended(tail: Tail, chunk: string, maxChars: nat): Tail {
    var combined := tail.text.GetOr("") + chunk;
    if chunk == "" then tail
    else if |combined| > maxChars then Tail(Some(FromEnd(combined, maxChars)), true)
    else Tail(Some(combined), tail.truncated)
  }

  /** Whatever limits the pushes are made with: a tail never forgets that it was cut, and a push is cut when it does not fit. */
  lemma TruncationIsRemembered(tail: Tail, chunk: string, maxChars: nat)
    ensures Appended(tail, chunk, maxChars).truncated
            <==> tail.truncated || (chunk != "" && |tail.text.GetOr("")| + |chunk| > maxChars)
  {
  }

  /** The row's two columns, and the call that updates them in place. */
  class Columns {
    var text: Option<string>
    var truncated: bool

    function Value(): Tail
      reads this
    {
      Tail(text, truncated)
    }

    constructor ()
      ensures Value() == EMPTY
    {
      text, truncated := None, false;
    }

    method Append(chunk: string, maxChars: nat)
      modifies this
      ensures Value() == Appended(old(Value()), chunk, maxChars)
    {
      if chunk == "" {
        return;
      }
      var combined := text.GetOr("") + chunk;
      if |combined| > maxChars {
        text := Some(FromEnd(combined, maxChars));
        truncated := true;
      } else {
        text := Some(combined);
      }
    }

    /** Any sequence of pushes, one call each, leaves exactly the end of all that was pushed. */
    method AppendAll(chunks: seq<string>, maxChars: nat)
      requires Value() == EMPTY && 1 <= maxChars
      modifies this
      ensures text.GetOr("") == LastChars(Concat(chunks), maxChars)
      ensures truncated == (|Concat(chunks)| > maxChars)
    {
      for k := 0 to |chunks|
        invariant Value() == After(chunks[..k], maxChars)
      {
        Append(chunks[k], maxChars);
        assert chunks[..k + 1][..k] == chunks[..k];
      }
      assert chunks[..|chunks|] == chunks;
      TailIsTheEnd(chunks, maxChars);
    }
  }

  // ----- what the tail means -----

  function Concat(chunks: seq<string>): string {
    if chunks == [] then "" else Concat(chunks[..|chunks| - 1]) + chunks[|chunks| - 1]
  }

  function After(chunks: seq<string>, maxChars: nat): Tail {
    if chunks == [] then EMPTY
    else Appended(After(chunks[..|chunks| - 1], maxChars), chunks[|chunks| - 1], maxChars)
  }

  function LastChars(s: string, n: nat): (r: string)
    ensures |r| == if |s| <= n then |s| else n
    ensures r == s[|s| - |r|..]
  {
    if |s| <= n then s else s[|s| - n..]
  }

  /** However the output was cut into chunks, the columns hold its last characters and say whether any went missing. */
  lemma {:induction false} TailIsTheEnd(chunks: seq<string>, maxChars: nat)
    requires 1 <= maxChars
    ensures After(chunks, maxChars).text.GetOr("") == LastChars(Concat(chunks), maxChars)
    ensures After(chunks, maxChars).truncated <==> |Concat(chunks)| > maxChars
  {
    if chunks != [] {
      hide LastChars, Appended;
      var whole, tail := Concat(chunks[..|chunks| - 1]), After(chunks[..|chunks| - 1], maxChars);
      TailIsTheEnd(chunks[..|chunks| - 1], maxChars);
      AppendedEnd(tail, whole, chunks[|chunks| - 1], maxChars);
    }
  }

  /** One more chunk keeps the tail the end of everything. */
  lemma AppendedEnd(tail: Tail, whole: string, chunk: string, n: nat)
    requires 1 <= n && tail.text.GetOr("") == LastChars(whole, n) && (tail.truncated <==> |whole| > n)
    ensures Appended(tail, chunk, n).text.GetOr("") == LastChars(whole + chunk, n)
    ensures Appended(tail, chunk, n).truncated <==> |whole + chunk| > n
  {
    EndOfEnd(whole, chunk, n);
    if chunk == "" {
      assert whole + chunk == whole;
    }
  }

  /** The end of a whole and a chunk can be taken from the whole's end and the chunk. */
  lemma EndOfEnd(whole: string, chunk: string, n: nat)
    requires 1 <= n
    ensures LastChars(LastChars(whole, n) + chunk, n) == LastChars(whole + chunk, n)
    ensures |LastChars(whole, n) + chunk| > n ==> |whole + chunk| > n
    ensures |LastChars(whole, n) + chunk| <= n && |whole| <= n ==> |whole + chunk| <= n
  {
    var kept := LastChars(whole, n);
    assert whole + chunk == whole[..|whole| - |kept|] + (kept + chunk);
  }

  /** A limit of zero keeps everything instead of nothing: the tail is right exactly when there was no output. */
  lemma {:induction false} ZeroLimitKeepsEverything(chunks: seq<string>)
    ensures |After(chunks, 0).text.GetOr("")| == |Concat(chunks)|
    ensures After(chunks, 0).text.GetOr("") == LastChars(Concat(chunks), 0) <==> Concat(chunks) == ""
    ensures After(chunks, 0).truncated <==> Concat(chunks) != ""
  {
    if chunks != [] {
      ZeroLimitKeepsEverything(chunks[..|chunks| - 1]);
    }
  }

  /** Two ways of cutting the same output into chunks leave the same text and the same flag. */
  lemma ChunkingDoesNotMatter(one: seq<string>, other: seq<string>, maxChars: nat)
    requires 1 <= maxChars && Concat(one) == Concat(other)
    ensures After(one, maxChars).text.GetOr("") == After(other, maxChars).text.GetOr("")
    ensures After(one, maxChars).truncated == After(other, maxChars).truncated
  {
    TailIsTheEnd(one, maxChars);
    TailIsTheEnd(other, maxChars);
  }
}
