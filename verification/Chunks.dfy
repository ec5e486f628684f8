/** The div/mod loop that send_data, write_data and discard_data share: `len / b` whole buffers,
    then the remainder if there is one. */
module Chunks {

  function NumChunks(b: nat, len: nat): nat
    requires b > 0
  {
    len / b + if len % b > 0 then 1 else 0
  }

  function ChunkLen(b: nat, len: nat, i: nat): nat
    requires b > 0
  {
    if i < len / b then b else len % b
  }

  /** How many bytes the first `i` chunks cover. */
  function ChunkStart(b: nat, len: nat, i: nat): nat
    requires b > 0
  {
    if i <= len / b then i * b else len
  }

  /** Chunks follow one another without gap or overlap and stay inside the item. */
  lemma ChunkStep(b: nat, len: nat, i: nat)
    requires b > 0 && i < NumChunks(b, len)
    ensures ChunkLen(b, len, i) > 0
    ensures ChunkStart(b, len, i) + ChunkLen(b, len, i) == ChunkStart(b, len, i + 1) <= len
  {
    DivMod(b, len);
    if i < len / b {
      assert (i + 1) * b == i * b + b;
      MulMono(i + 1, len / b, b);
    }
  }

  lemma ChunkEnds(b: nat, len: nat)
    requires b > 0
    ensures ChunkStart(b, len, 0) == 0
    ensures ChunkStart(b, len, NumChunks(b, len)) == len
    ensures len == 0 <==> NumChunks(b, len) == 0
  {
    DivMod(b, len);
  }

  lemma DivMod(b: nat, len: nat)
    requires b > 0
    ensures (len / b) * b + len % b == len
  {
  }

  lemma MulMono(x: nat, y: nat, b: nat)
    requires x <= y
    ensures x * b <= y * b
  {
  }

  lemma DivZero(b: nat, len: nat)
    requires b > 0
    ensures len / b == 0 <==> len < b
  {
  }

  lemma DivUnique(b: nat, len: nat, q: nat, r: nat)
    requires b > 0 && len == q * b + r && r < b
    ensures len / b == q && len % b == r
  {
    DivMod(b, len);
    var p := len / b;
    assert (q + 1) * b == q * b + b && (p + 1) * b == p * b + b;
    if p > q { MulMono(q + 1, p, b); }
    if p < q { MulMono(p + 1, q, b); }
  }

  lemma DivStep(b: nat, len: nat)
    requires b > 0 && len >= b
    ensures len / b == (len - b) / b + 1 && len % b == (len - b) % b
  {
    var q, r := (len - b) / b, (len - b) % b;
    DivMod(b, len - b);
    assert (q + 1) * b == q * b + b;
    DivUnique(b, len, q + 1, r);
  }
}
