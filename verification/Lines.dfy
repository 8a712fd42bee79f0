// Newline-terminated lines in a byte sequence.
module Lines {

  type Bytes = seq<bv8>

  const NL: bv8 := 10

  /** One past the newline that ends the line at `at`, or the end of the file. */
  function LineEnd(b: Bytes, at: nat): (end: nat)
    requires at < |b|
    ensures at < end <= |b|
    decreases |b| - at
  {
    if b[at] == NL || at + 1 == |b| then at + 1 else LineEnd(b, at + 1)
  }

  lemma {:induction false} LineEndAt(b: Bytes, at: nat, n: nat)
    requires at + n < |b| && b[at + n] == NL
    requires forall i | at <= i < at + n :: b[i] != NL
    ensures LineEnd(b, at) == at + n + 1
    decreases n
  {
    if n > 0 { LineEndAt(b, at + 1, n - 1); }
  }

  lemma {:induction false} LineEndAtEof(b: Bytes, at: nat)
    requires at < |b|
    requires forall i | at <= i < |b| :: b[i] != NL
    ensures LineEnd(b, at) == |b|
    decreases |b| - at
  {
    if at + 1 < |b| { LineEndAtEof(b, at + 1); }
  }

  lemma LastLineEnd(b: Bytes, at: nat)
    requires at < |b|
    requires forall i | at <= i < |b| - 1 :: b[i] != NL
    ensures LineEnd(b, at) == |b|
  {
    if b[|b| - 1] == NL { LineEndAt(b, at, |b| - 1 - at); } else { LineEndAtEof(b, at); }
  }

  lemma {:induction false} LineEndPrefix(b: Bytes, cut: nat, at: nat)
    requires at < cut <= |b| && LineEnd(b, at) <= cut
    ensures LineEnd(b[..cut], at) == LineEnd(b, at)
    decreases |b| - at
  {
    if !(b[at] == NL || at + 1 == |b|) {
      if at + 1 < cut { LineEndPrefix(b, cut, at + 1); }
    }
  }
}
