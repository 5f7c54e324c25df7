/** Reading a process stream into a bounded buffer that others may look at meanwhile. */
module OutputReaders {
  import opened Triggers

  const MAX_OUTPUT_BYTES: nat := 2 * 1024 * 1024

  /** A line feed and `... [output truncated]`. */
  const TRUNCATION_SUFFIX: seq<byte> :=
    [10, 46, 46, 46, 32, 91, 111, 117, 116, 112, 117, 116, 32, 116, 114, 117, 110, 99, 97, 116, 101, 100, 93]

  /** What one read answers; an empty chunk is the end of the stream. */
  datatype Read = Got(chunk: seq<byte>) | Failed

  /** The bytes a reader sees before the stream ends or fails. */
  function Stream(answers: seq<Read>): seq<byte> {
    if answers == [] || answers[0].Failed? || answers[0].chunk == [] then []
        else answers[0].chunk + Stream(answers[1..])
  }

  lemma StreamFrom(answers: seq<Read>, i: nat)
    requires i <= |answers|
    ensures Stream(answers[i..]) ==
              if i == |answers| || answers[i].Failed? || answers[i].chunk == [] then []
              else answers[i].chunk + Stream(answers[i + 1..])
  {
    if i < |answers| { assert answers[i..][1..] == answers[i + 1..]; }
  }

  function Capped(s: seq<byte>): seq<byte> {
    if |s| <= MAX_OUTPUT_BYTES then s else s[..MAX_OUTPUT_BYTES] + TRUNCATION_SUFFIX
  }

  class OutputReader {
    var buffer: seq<byte>
    var truncated: bool
    ghost var seen: seq<byte>

    /** The buffer is a function of the bytes read so far, not of how they arrived. */
    ghost predicate Valid()
      reads this
    {
      buffer == Capped(seen) && (truncated <==> |seen| > MAX_OUTPUT_BYTES)
    }

    constructor ()
      ensures Valid() && seen == []
    {
      buffer, truncated, seen := [], false, [];
    }

    method Append(chunk: seq<byte>)
      requires Valid() && chunk != []
      modifies this
      ensures Valid() && seen == old(seen) + chunk
    {
      seen := seen + chunk;
      if truncated {
        assert seen[..MAX_OUTPUT_BYTES] == old(seen)[..MAX_OUTPUT_BYTES];
        return;
      }
      if |buffer| + |chunk| <= MAX_OUTPUT_BYTES {
        buffer := buffer + chunk;
      } else {
        var room := if |buffer| > MAX_OUTPUT_BYTES then 0 else MAX_OUTPUT_BYTES - |buffer|;
        buffer := buffer + chunk[..room];
        assert buffer == seen[..MAX_OUTPUT_BYTES];
        buffer := buffer + TRUNCATION_SUFFIX;
        truncated := true;
      }
    }

    /** Whatever the split into reads, the buffer ends as the capped stream. */
    method ReadAll(answers: seq<Read>)
      requires Valid() && seen == []
      modifies this
      ensures Valid() && seen == Stream(answers) && buffer == Capped(Stream(answers))
    {
      hide Capped;
      var i := 0;
      while i < |answers| && answers[i].Got? && answers[i].chunk != []
        invariant 0 <= i <= |answers| && Valid()
        invariant Stream(answers) == seen + Stream(answers[i..])
      {
        StreamFrom(answers, i);
        Append(answers[i].chunk);
        i := i + 1;
      }
      StreamFrom(answers, i);
    }
  }

  /** A text of ASCII characters as bytes. */
  function Ascii(s: string): seq<int> {
    seq(|s|, i requires 0 <= i < |s| => s[i] as int)
  }

  /** Up to two mebibytes the output is shown as it is; beyond, its first two mebibytes and the note are. */
  lemma CappedShows(s: seq<byte>)
    ensures |s| <= 2_097_152 ==> Capped(s) == s
    ensures |s| > 2_097_152 ==> Capped(s)[..2_097_152] == s[..2_097_152]
                                && Capped(s)[2_097_152..] == Ascii("\n... [output truncated]")
  {
    var note := "\n... [output truncated]";
    assert |note| == 23;
    assert TRUNCATION_SUFFIX == Ascii(note);
  }

  /** A snapshot taken early agrees with every later one on the bytes of the stream it shows. */
  lemma SnapshotsAgree(early: seq<byte>, more: seq<byte>)
    ensures var shown := if |early| <= MAX_OUTPUT_BYTES then |early| else MAX_OUTPUT_BYTES;
            shown <= |Capped(early)| && shown <= |Capped(early + more)|
            && Capped(early)[..shown] == early[..shown] == Capped(early + more)[..shown]
    ensures |early| > MAX_OUTPUT_BYTES ==> Capped(early + more) == Capped(early)
  {
    assert (early + more)[..|early|] == early;
    if |early| > MAX_OUTPUT_BYTES {
      assert (early + more)[..MAX_OUTPUT_BYTES] == early[..MAX_OUTPUT_BYTES];
    }
  }

  predicate Ends(answer: Read) { answer.Failed? || answer.chunk == [] }

  /**
   Every read adds its bytes as long as none before it failed or was empty; from the first
   such read on nothing is added.
   */
  lemma {:induction false} StreamOfOneMore(answers: seq<Read>, answer: Read)
    ensures Stream([]) == []
    ensures Stream(answers + [answer]) ==
              if Ends(answer) || (exists i :: 0 <= i < |answers| && Ends(answers[i])) then Stream(answers)
              else Stream(answers) + answer.chunk
  {
    if answers == [] {
      assert ([] + [answer])[1..] == [];
    } else {
      StreamOfOneMore(answers[1..], answer);
      assert (answers + [answer])[1..] == answers[1..] + [answer];
      if exists i :: 0 <= i < |answers[1..]| && Ends(answers[1..][i]) {
        var i :| 0 <= i < |answers[1..]| && Ends(answers[1..][i]);
        assert Ends(answers[i + 1]);
      }
      if !Ends(answers[0]) && (exists i :: 0 <= i < |answers| && Ends(answers[i])) {
        var i :| 0 <= i < |answers| && Ends(answers[i]);
        assert Ends(answers[1..][i - 1]);
      }
      if !Ends(answer) && !Ends(answers[0]) {
        var first, rest := answers[0].chunk, Stream(answers[1..]);
        assert first + (rest + answer.chunk) == first + rest + answer.chunk;
      }
    }
  }

  /** The reads with the i-th one cut in two after `k` bytes. */
  function Cut(answers: seq<Read>, i: nat, k: nat): seq<Read>
    requires i < |answers| && answers[i].Got? && k <= |answers[i].chunk|
  {
    answers[..i] + [Got(answers[i].chunk[..k]), Got(answers[i].chunk[k..])] + answers[i + 1..]
  }

  /** Two ways of cutting the same bytes into reads show the same output. */
  lemma {:induction false} CutsDoNotMatter(answers: seq<Read>, i: nat, k: nat)
    requires i < |answers| && answers[i].Got? && 0 < k < |answers[i].chunk|
    ensures Stream(Cut(answers, i, k)) == Stream(answers)
    decreases i
  {
    var chunk, cut := answers[i].chunk, Cut(answers, i, k);
    if i == 0 {
      assert cut[1..] == [Got(chunk[k..])] + answers[1..];
      assert cut[1..][1..] == answers[1..];
      assert chunk == chunk[..k] + chunk[k..];
      assert Stream(cut) == chunk[..k] + (chunk[k..] + Stream(answers[1..]));
    } else {
      CutsDoNotMatter(answers[1..], i - 1, k);
      assert answers[1..][i - 1] == answers[i] && answers[1..][i..] == answers[i + 1..];
      assert cut[1..] == Cut(answers[1..], i - 1, k);
    }
  }
}
