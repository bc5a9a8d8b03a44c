/** How the fixed sequence fills the places of a stand-in, one draw for each, and which places those are. */
module StandInDraws {
  import opened Options
  import opened StandIns

  /** The state after `n` draws. */
  function Drawn(seed: bv32, n: nat): bv32
    decreases n
  {
    if n == 0 then seed else Drawn(Next(seed), n - 1)
  }

  /** How many of the first `k` places of a shape are gaps. */
  function Gaps(shape: seq<Option<char>>, k: nat): nat
    requires k <= |shape|
  {
    if k == 0 then 0 else (if shape[0].None? then 1 else 0) + Gaps(shape[1..], k - 1)
  }

  /** The gap at place `k` shows the low four bits of the draw that is its own, one draw for each gap. */
  lemma {:induction false} GapShowsDraw(shape: seq<Option<char>>, seed: bv32, k: nat)
    requires k < |shape| && shape[k].None?
    ensures |Fill(shape, seed).0| == |shape|
    ensures Fill(shape, seed).0[k] == "0123456789abcdef"[(Drawn(seed, Gaps(shape, k) + 1) % 16) as int]
  {
    FillLength(shape, seed);
    if k > 0 {
      GapShowsDraw(shape[1..], if shape[0].None? then Next(seed) else seed, k - 1);
    } else {
      assert Drawn(seed, 1) == Drawn(Next(seed), 0);
    }
  }

  /** The first three draws of any page. */
  lemma FirstDraws()
    ensures var seed := Fresh(None).names.seed;
      Drawn(seed, 1) == 0xab511c1 && Drawn(seed, 2) == 0xb921d567 && Drawn(seed, 3) == 0xf223e081
  {
    assert Next(SEED) == 0xab511c1;
    assert Next(0xab511c1) == 0xb921d567;
    assert Next(0xb921d567) == 0xf223e081;
    assert Drawn(SEED, 1) == Drawn(0xab511c1, 0);
    assert Drawn(SEED, 2) == Drawn(0xab511c1, 1) == Drawn(0xb921d567, 0);
    assert Drawn(SEED, 3) == Drawn(0xab511c1, 2) == Drawn(0xb921d567, 1) == Drawn(0xf223e081, 0);
  }

  // ---------------------------------------------------------------- which ids keep a prefix

  /** An engine id is a lower-case word, a dash and exactly twelve hexadecimal digits. */
  lemma EngineIdExactly(word: string, digits: string)
    requires '-' !in word && '-' !in digits
    ensures IsEngineId(word + "-" + digits) <==>
      && word != "" && |digits| == 12 && (forall i :: 0 <= i < |word| ==> 'a' <= word[i] <= 'z')
      && (forall i :: 0 <= i < |digits| ==> '0' <= digits[i] <= '9' || 'a' <= digits[i] <= 'f')
  {
    var id := word + "-" + digits;
    assert id[|word|] == '-';
    assert forall i :: 0 <= i < |word| ==> id[i] == word[i];
    assert forall i :: 0 <= i < |digits| ==> id[|word| + 1 + i] == digits[i];
    if IsEngineId(id) {
      assert id[|id| - 13] == '-';
      assert |digits| == 12;
      forall i | 0 <= i < |digits| ensures IsHex(digits[i]) { assert IsHex(id[|word| + 1 + i]); }
      forall i | 0 <= i < |word| ensures IsLower(word[i]) { assert IsLower(id[i]); }
    }
  }

  /** Of any other id, every hexadecimal digit is replaced and nothing else. */
  lemma OtherIdsReplaced(id: string, seed: bv32, k: nat)
    requires !IsEngineId(id) && k < |id|
    ensures |Fill(Shape(id), seed).0| == |id|
    ensures var shown := Fill(Shape(id), seed).0;
      if IsHex(id[k]) then IsHex(shown[k]) && Shape(id)[k].None? else shown[k] == id[k]
  {
    FillAt(Shape(id), seed, k);
  }
}
