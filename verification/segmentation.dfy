/** From sentences to clauses: each sentence the sentence splitter returns is cut at every
    `;`, and each piece is normalised by the word tokenizer (registry_parser.py:340-343,
    parser.py:208-211). The tokenizer is a parameter: `normalize(chunk)` stands for
    `" ".join(tokenize_words(chunk))`. */
module Segmentation {
  import opened Text

  /** The `;`-separated pieces of every sentence, sentence by sentence. */
  function Pieces(sents: seq<string>): (r: seq<string>)
    ensures forall k :: 0 <= k < |r| ==> ';' !in r[k]
    decreases |sents|
  {
    if |sents| == 0 then [] else Split(sents[0], ';') + Pieces(sents[1..])
  }

  /** `_get_normalized(sents)`: the normalised pieces, in order. */
  function Clauses(sents: seq<string>, normalize: string -> string): (r: seq<string>)
    ensures |r| == |Pieces(sents)|
    ensures forall k :: 0 <= k < |r| ==> r[k] == normalize(Pieces(sents)[k])
  {
    var p := Pieces(sents);
    seq(|p|, k requires 0 <= k < |p| => normalize(p[k]))
  }

  /** Cutting a list of sentences is cutting each part of it. */
  lemma {:induction false} PiecesAppend(a: seq<string>, b: seq<string>)
    ensures Pieces(a + b) == Pieces(a) + Pieces(b)
    decreases |a|
  {
    if |a| == 0 {
      assert a + b == b;
    } else {
      assert (a + b)[0] == a[0];
      assert (a + b)[1..] == a[1..] + b;
      PiecesAppend(a[1..], b);
    }
  }

  lemma ClausesAppend(a: seq<string>, b: seq<string>, normalize: string -> string)
    ensures Clauses(a + b, normalize) == Clauses(a, normalize) + Clauses(b, normalize)
  {
    PiecesAppend(a, b);
  }

  /** The pieces of one sentence are its `split(";")`: one more than it has semicolons, and
      joined with `;` they give the sentence back. */
  lemma PiecesOfSentence(s: string)
    ensures Pieces([s]) == Split(s, ';')
    ensures |Pieces([s])| == Count(s, ';') + 1
    ensures Join(Pieces([s]), ';') == s
  {
    assert [s][1..] == [];
    assert Split(s, ';') + [] == Split(s, ';');
  }

  /** The `c`-th clause of one sentence is its `c`-th `;`-piece normalised. */
  lemma SentenceClauses(sent: string, normalize: string -> string, c: nat)
    requires c < |Split(sent, ';')|
    ensures |Clauses([sent], normalize)| == |Split(sent, ';')|
    ensures Clauses([sent], normalize)[c] == normalize(Split(sent, ';')[c])
  {
    PiecesOfSentence(sent);
  }
}
