/** Removal of Markdown code fences from the model's reply: the text is
    trimmed, then for each opener in turn ("```sql", then "```"), a reply that
    starts with the opener is cut down to what lies between the opener and the
    next "```", trimmed again. */
module Fences {
  import opened Text

  /** The fence delimiter. */
  const Fence: string := "```"

  /** The fence opener that names the SQL language. */
  const SqlFence: string := "```sql"

  /** The openers tried, in the order the loop tries them. */
  const Openers: seq<string> := [SqlFence, Fence]

  /** A fence delimiter begins at index `i` of `s`. */
  predicate FenceAt(s: string, i: nat)
    requires i + 3 <= |s|
  {
    s[i] == '`' && s[i + 1] == '`' && s[i + 2] == '`'
  }

  /** `s` contains no fence delimiter anywhere. */
  predicate NoFence(s: string) {
    forall i: nat :: i + 3 <= |s| ==> !FenceAt(s, i)
  }

  /** The index of the first delimiter at or after `i`, or `|s|` when
      there is none. */
  function FindFence(s: string, i: nat): (j: nat)
    requires i <= |s|
    ensures i <= j <= |s|
    decreases |s| - i
  {
    if i + 3 > |s| then |s| else if FenceAt(s, i) then i else FindFence(s, i + 1)
  }

  /** `s.split("```")[0]`: the text before the first fence delimiter, or all
      of `s` when it has none. */
  function BeforeFence(s: string): string {
    s[..FindFence(s, 0)]
  }

  /** `FindFence` stops at the first delimiter from `i` on. */
  lemma {:induction false} FindFenceSpec(s: string, i: nat)
    requires i <= |s|
    ensures var j := FindFence(s, i);
      && (forall k: nat :: i <= k < j && k + 3 <= |s| ==> !FenceAt(s, k))
      && (j == |s| || (j + 3 <= |s| && FenceAt(s, j)))
    decreases |s| - i
  {
    if i + 3 <= |s| && !FenceAt(s, i) {
      FindFenceSpec(s, i + 1);
    }
  }

  /** `BeforeFence` keeps a prefix and stops at the first delimiter: none
      begins inside what it keeps, and one begins right after it unless it
      kept everything. */
  lemma BeforeFenceSpec(s: string)
    ensures var r := BeforeFence(s);
      && |r| <= |s| && r == s[..|r|]
      && (forall i: nat :: i < |r| && i + 3 <= |s| ==> !FenceAt(s, i))
      && (|r| == |s| || (|r| + 3 <= |s| && FenceAt(s, |r|)))
  {
    FindFenceSpec(s, 0);
  }

  /** What `BeforeFence` keeps holds no delimiter. */
  lemma BeforeFenceNoFence(s: string)
    ensures NoFence(BeforeFence(s))
  {
    BeforeFenceSpec(s);
    var r := BeforeFence(s);
    assert forall i: nat :: i + 3 <= |r| ==> FenceAt(r, i) == FenceAt(s, i);
  }

  /** One turn of the loop over the openers: a text starting with `opener`
      becomes the trimmed text between the opener and the next delimiter. */
  function FenceStep(opener: string, s: string): string {
    if StartsWith(s, opener) then Strip(BeforeFence(s[|opener|..])) else s
  }

  /** The turns of the loop for the openers `ps`, in order. */
  function ApplyOpeners(ps: seq<string>, s: string): string
    decreases |ps|
  {
    if ps == [] then s else FenceStep(ps[|ps| - 1], ApplyOpeners(ps[..|ps| - 1], s))
  }

  /** The whole clean-up of a reply: trim, then the loop over `Openers`. */
  function StripFences(content: string): string {
    ApplyOpeners(Openers, Strip(content))
  }

  /** The clean-up as the source writes it: a loop over the two openers that
      reassigns the working text. */
  method RemoveFences(content: string) returns (sql: string)
    ensures sql == StripFences(content)
  {
    var prefixes := Openers;
    sql := Strip(content);
    for i := 0 to |prefixes|
      invariant sql == ApplyOpeners(prefixes[..i], Strip(content))
    {
      var prefix := prefixes[i];
      assert prefixes[..i + 1][..i] == prefixes[..i];
      if StartsWith(sql, prefix) {
        sql := Strip(BeforeFence(sql[|prefix|..]));
      }
    }
    assert prefixes[..|prefixes|] == Openers;
  }

  /** A text without delimiters does not start with one. */
  lemma NoFenceNotFenced(s: string)
    requires NoFence(s)
    ensures !StartsWith(s, Fence)
  {
    if StartsWith(s, Fence) {
      assert s[..3] == Fence;
      assert FenceAt(s, 0);
    }
  }

  /** Any slice of a delimiter-free text is delimiter-free. */
  lemma NoFenceSlice(s: string, a: nat, b: nat)
    requires NoFence(s) && a <= b <= |s|
    ensures NoFence(s[a..b])
  {
    forall i: nat | i + 3 <= b - a
      ensures !FenceAt(s[a..b], i)
    {
      assert FenceAt(s[a..b], i) == FenceAt(s, a + i);
    }
  }

  /** Trimming keeps a text delimiter-free. */
  lemma NoFenceStrip(s: string)
    requires NoFence(s)
    ensures NoFence(Strip(s))
  {
    StripSlice(s);
    NoFenceSlice(s, StripStart(s), StripStart(s) + |Strip(s)|);
  }

  /** The loop over both openers, written out. */
  lemma ApplyOpenersUnfold(s: string)
    ensures ApplyOpeners(Openers, s) == FenceStep(Fence, FenceStep(SqlFence, s))
  {
    assert Openers[..1] == [SqlFence];
    assert [SqlFence][..0] == [];
    assert ApplyOpeners([SqlFence], s) == FenceStep(SqlFence, s);
  }

  /** The clean-up, written out. */
  lemma StripFencesUnfold(content: string)
    ensures StripFences(content) == FenceStep(Fence, FenceStep(SqlFence, Strip(content)))
  {
    ApplyOpenersUnfold(Strip(content));
  }

  /** A reply opened by "```sql" (after trimming) yields the trimmed text
      between that opener and the next delimiter, which holds no delimiter. */
  lemma StripFencesSqlOpened(content: string)
    requires StartsWith(Strip(content), SqlFence)
    ensures var s, r := Strip(content), StripFences(content);
      r == Strip(BeforeFence(s[|SqlFence|..])) && NoFence(r)
  {
    StripFencesUnfold(content);
    var t := Strip(BeforeFence(Strip(content)[|SqlFence|..]));
    BeforeFenceNoFence(Strip(content)[|SqlFence|..]);
    NoFenceStrip(BeforeFence(Strip(content)[|SqlFence|..]));
    NoFenceNotFenced(t);
  }

  /** A reply opened by "```" but not by "```sql" (after trimming) yields the
      trimmed text between the opener and the next delimiter, which holds no
      delimiter. */
  lemma StripFencesPlainOpened(content: string)
    requires !StartsWith(Strip(content), SqlFence) && StartsWith(Strip(content), Fence)
    ensures var s, r := Strip(content), StripFences(content);
      r == Strip(BeforeFence(s[|Fence|..])) && NoFence(r)
  {
    StripFencesUnfold(content);
    BeforeFenceNoFence(Strip(content)[|Fence|..]);
    NoFenceStrip(BeforeFence(Strip(content)[|Fence|..]));
  }

  /** A reply that does not open with a delimiter (after trimming) is only
      trimmed. */
  lemma StripFencesUnopened(content: string)
    requires !StartsWith(Strip(content), Fence)
    ensures StripFences(content) == Strip(content)
  {
    StripFencesUnfold(content);
    SqlOpenerIsOpener(Strip(content));
  }

  /** Text opened by "```sql" is opened by "```". */
  lemma SqlOpenerIsOpener(s: string)
    ensures StartsWith(s, SqlFence) ==> StartsWith(s, Fence)
  {
    if StartsWith(s, SqlFence) {
      assert s[..|Fence|] == s[..|SqlFence|][..|Fence|];
    }
  }

  /** The result of the clean-up never has surrounding whitespace. */
  lemma StripFencesStripped(content: string)
    ensures IsStripped(StripFences(content))
  {
    var s := Strip(content);
    StripStripped(content);
    if StartsWith(s, SqlFence) {
      StripFencesSqlOpened(content);
      StripStripped(BeforeFence(s[|SqlFence|..]));
    } else if StartsWith(s, Fence) {
      StripFencesPlainOpened(content);
      StripStripped(BeforeFence(s[|Fence|..]));
    } else {
      StripFencesUnopened(content);
    }
  }

  /** The clean-up never returns text that starts with a delimiter. */
  lemma StripFencesNotFenced(content: string)
    ensures !StartsWith(StripFences(content), Fence)
  {
    var s := Strip(content);
    if StartsWith(s, SqlFence) {
      StripFencesSqlOpened(content);
      NoFenceNotFenced(StripFences(content));
    } else if StartsWith(s, Fence) {
      StripFencesPlainOpened(content);
      NoFenceNotFenced(StripFences(content));
    } else {
      StripFencesUnopened(content);
    }
  }

  /** A trimmed text that does not start with a delimiter is already clean. */
  lemma StripFencesFixed(x: string)
    requires IsStripped(x) && !StartsWith(x, Fence)
    ensures StripFences(x) == x
  {
    StrippedIsFixed(x);
    StripFencesUnfold(x);
    assert !StartsWith(x, SqlFence);
  }

  /** Cleaning an already clean reply changes nothing. */
  lemma StripFencesIdempotent(content: string)
    ensures StripFences(StripFences(content)) == StripFences(content)
  {
    StripFencesStripped(content);
    StripFencesNotFenced(content);
    StripFencesFixed(StripFences(content));
  }

  /** `BeforeFence` stops at the first delimiter. */
  lemma BeforeFenceAt(s: string, n: nat)
    requires n + 3 <= |s| && FenceAt(s, n)
    requires forall i: nat :: i < n ==> !FenceAt(s, i)
    ensures BeforeFence(s) == s[..n]
  {
    BeforeFenceSpec(s);
  }

  /** A typical fenced reply: a fenced `SELECT 1;` comes back bare. */
  lemma StripFencesExample()
    ensures StripFences("```sql\nSELECT 1;\n```") == "SELECT 1;"
  {
    var content := "```sql\nSELECT 1;\n```";
    StrippedIsFixed(content);
    assert content[..|SqlFence|] == SqlFence;
    assert content[|SqlFence|..] == "\nSELECT 1;\n```";
    ExampleBody();
    ExampleTrim();
    StripFencesSqlOpened(content);
  }

  lemma ExampleBody()
    ensures BeforeFence("\nSELECT 1;\n```") == "\nSELECT 1;\n"
  {
    var u := "\nSELECT 1;\n```";
    assert FenceAt(u, 11);
    forall i: nat | i < 11 ensures !FenceAt(u, i) {
      assert u[i] != '`';
    }
    BeforeFenceAt(u, 11);
  }

  lemma ExampleTrim()
    ensures Strip("\nSELECT 1;\n") == "SELECT 1;"
  {
    var v := "\nSELECT 1;\n";
    assert IsSpace(v[0]) && !IsSpace(v[1]);
    assert StripStart(v) == 1;
    assert IsSpace(v[10]) && !IsSpace(v[9]);
    assert BackSpace(v, 1, 11) == BackSpace(v, 1, 10) == 10;
    assert v[1..10] == "SELECT 1;";
  }
}
