/**
 * The on-device model wrapper (src/services/modelLoader.ts): a lazily created
 * single instance holding a 67-character tokenizer and its reverse, and the
 * guards around loading the model and generating a reply. Creating the ONNX
 * session and running it are inputs of the model.
 */
module ModelLoader {
  import opened Wrappers

  /** An inference session, standing for the one `InferenceSession.create` returns. */
  datatype Session = Session(modelUrl: string)

  const Lowercase := "abcdefghijklmnopqrstuvwxyz"
  const Uppercase := "ABCDEFGHIJKLMNOPQRSTUVWXYZ"
  const Digits := "0123456789"
  const Punctuation := ".,!? "

  /** The basic vocabulary, in token order. */
  const Vocab: string := Lowercase + Uppercase + Digits + Punctuation

  const ModelNotLoaded := "Model not loaded"

  /** The TypeError a typed array of 64-bit integers raises when handed a Number instead of a BigInt. */
  const BigIntTypeError := "TypeError: Cannot convert a Number to a BigInt"

  /** A JavaScript numeric value: a Number or a BigInt (only integers occur here). */
  datatype Numeric = Number(n: int) | BigInt(n: int)

  /**
   * `BigInt64Array.from(xs)`: every element must already be a BigInt; a
   * Number anywhere throws the TypeError.
   */
  function BigInt64ArrayFrom(xs: seq<Numeric>): (r: Result<seq<int>>)
    ensures r.Success? <==> forall k :: 0 <= k < |xs| ==> xs[k].BigInt?
    ensures r.Failure? ==> r.error == BigIntTypeError
    ensures r.Success? ==> |r.value| == |xs| && forall k :: 0 <= k < |xs| ==> r.value[k] == xs[k].n
  {
    if forall k :: 0 <= k < |xs| ==> xs[k].BigInt? then Success(seq(|xs|, k requires 0 <= k < |xs| => xs[k].n))
    else Failure(BigIntTypeError)
  }

  // ---------------------------------------------------------------------------
  // The vocabulary is a bijection between its characters and 0..66
  // ---------------------------------------------------------------------------

  /** The position of a character in the vocabulary, computed from its code; -1 outside it. */
  function Index(c: char): int {
    if 'a' <= c <= 'z' then c as int - 'a' as int
    else if 'A' <= c <= 'Z' then c as int - 'A' as int + 26
    else if '0' <= c <= '9' then c as int - '0' as int + 52
    else if c == '.' then 62
    else if c == ',' then 63
    else if c == '!' then 64
    else if c == '?' then 65
    else if c == ' ' then 66
    else -1
  }

  lemma LowercaseRun()
    ensures |Lowercase| == 26 && forall i :: 0 <= i < 26 ==> Lowercase[i] as int == 'a' as int + i
  {
  }

  lemma UppercaseRun()
    ensures |Uppercase| == 26 && forall i :: 0 <= i < 26 ==> Uppercase[i] as int == 'A' as int + i
  {
  }

  lemma DigitsRun()
    ensures |Digits| == 10 && forall i :: 0 <= i < 10 ==> Digits[i] as int == '0' as int + i
  {
  }

  /** Every vocabulary character sits at the position `Index` computes. */
  lemma IndexOfVocab()
    ensures |Vocab| == 67
    ensures forall i :: 0 <= i < 67 ==> Index(Vocab[i]) == i
  {
    forall i | 0 <= i < 67 ensures Index(Vocab[i]) == i {
      IndexAt(i);
    }
  }

  lemma IndexAt(i: nat)
    requires i < |Vocab|
    ensures Index(Vocab[i]) == i
  {
    if i < 26 {
      LowercaseRun();
      assert Vocab[i] == Lowercase[i];
    } else if i < 52 {
      UppercaseRun();
      assert Vocab[i] == Uppercase[i - 26];
    } else if i < 62 {
      DigitsRun();
      assert Vocab[i] == Digits[i - 52];
    } else {
      assert Vocab[i] == Punctuation[i - 62];
    }
  }

  /** The 67 characters are pairwise distinct, and a character is in the vocabulary exactly when `Index` places it. */
  lemma VocabDistinct()
    ensures |Vocab| == 67
    ensures forall i, j :: 0 <= i < j < 67 ==> Vocab[i] != Vocab[j]
    ensures forall c :: c in Vocab <==> 0 <= Index(c) < 67 && Vocab[Index(c)] == c
  {
    IndexOfVocab();
  }

  /** What the tokenizer holds once filled: each vocabulary character to its position. */
  ghost function TokenIds(): map<char, int> {
    map c | c in Vocab :: Index(c)
  }

  /** What the reverse tokenizer holds once filled: each position to its character. */
  ghost function TokenChars(): map<int, char> {
    map i | 0 <= i < |Vocab| :: Vocab[i]
  }

  /** The two maps are inverse bijections between the vocabulary and 0..66. */
  lemma TokenizerRoundTrip()
    ensures forall c :: c in TokenIds() <==> c in Vocab
    ensures forall i :: i in TokenChars() <==> 0 <= i < 67
    ensures forall c :: c in TokenIds() ==> TokenIds()[c] in TokenChars() && TokenChars()[TokenIds()[c]] == c
    ensures forall i :: i in TokenChars() ==> TokenChars()[i] in TokenIds() && TokenIds()[TokenChars()[i]] == i
  {
    VocabDistinct();
  }

  /** The tokenizer after the first `i` positions of the pass. */
  ghost function IdsUpTo(i: nat): map<char, int>
    requires i <= |Vocab|
  {
    map c | c in Vocab[..i] :: Index(c)
  }

  /** The reverse tokenizer after the first `i` positions of the pass. */
  ghost function CharsUpTo(i: nat): map<int, char>
    requires i <= |Vocab|
  {
    map k | 0 <= k < i :: Vocab[k]
  }

  lemma IdsStep(i: nat)
    requires i < |Vocab|
    ensures IdsUpTo(i)[Vocab[i] := i] == IdsUpTo(i + 1)
  {
    IndexAt(i);
    PrefixMapStep(Vocab, i);
  }

  /** Extending a prefix by one character adds that character's entry, for any string. */
  lemma PrefixMapStep(v: string, i: nat)
    requires i < |v| && Index(v[i]) == i
    ensures (map c | c in v[..i] :: Index(c))[v[i] := i] == map c | c in v[..i + 1] :: Index(c)
  {
    assert v[..i + 1] == v[..i] + [v[i]];
  }

  /** After the whole pass the partial maps are the full ones. */
  lemma PassComplete()
    ensures IdsUpTo(|Vocab|) == TokenIds() && CharsUpTo(|Vocab|) == TokenChars()
  {
    assert Vocab[..|Vocab|] == Vocab;
  }

  lemma CharsStep(i: nat)
    requires i < |Vocab|
    ensures CharsUpTo(i)[i := Vocab[i]] == CharsUpTo(i + 1)
  {
  }

  lemma UpdateUnion<K, V>(a: map<K, V>, b: map<K, V>, k: K, v: V)
    ensures (a + b)[k := v] == a + b[k := v]
  {
  }

  // ---------------------------------------------------------------------------
  // The loader
  // ---------------------------------------------------------------------------

  class ModelLoader {
    var session: Option<Session>
    var isLoading: bool
    var tokenizer: map<char, int>
    var reverseTokenizer: map<int, char>

    /** The tokenizer maps are filled. */
    ghost predicate Valid()
      reads this
    {
      tokenizer == TokenIds() && reverseTokenizer == TokenChars()
    }

    /** The private constructor: no session, not loading, tokenizer filled. */
    constructor()
      ensures Valid() && session.None? && !isLoading
    {
      session := None;
      isLoading := false;
      tokenizer := map[];
      reverseTokenizer := map[];
      new;
      InitializeTokenizer();
    }

    /** `initializeTokenizer`: one pass over the vocabulary, setting both maps at each position. */
    method InitializeTokenizer()
      modifies this
      ensures tokenizer == old(tokenizer) + TokenIds()
      ensures reverseTokenizer == old(reverseTokenizer) + TokenChars()
      ensures session == old(session) && isLoading == old(isLoading)
    {
      var i := 0;
      while i < |Vocab|
        invariant 0 <= i <= |Vocab|
        invariant tokenizer == old(tokenizer) + IdsUpTo(i)
        invariant reverseTokenizer == old(reverseTokenizer) + CharsUpTo(i)
        invariant session == old(session) && isLoading == old(isLoading)
      {
        IdsStep(i);
        CharsStep(i);
        UpdateUnion(old(tokenizer), IdsUpTo(i), Vocab[i], i);
        UpdateUnion(old(reverseTokenizer), CharsUpTo(i), i, Vocab[i]);
        tokenizer := tokenizer[Vocab[i] := i];
        reverseTokenizer := reverseTokenizer[i := Vocab[i]];
        i := i + 1;
      }
      PassComplete();
    }

    /** The tokenization of a prompt: one token per character, 0 for a character outside the vocabulary. */
    function Tokenize(prompt: string): (tokens: seq<int>)
      reads this
      ensures |tokens| == |prompt|
    {
      seq(|prompt|, k requires 0 <= k < |prompt| reads this =>
        if prompt[k] in tokenizer then tokenizer[prompt[k]] else 0)
    }

    /** The last step of decoding: each token the reverse tokenizer knows becomes its character; others are skipped. */
    function Detokenize(tokens: seq<int>): string
      reads this
      decreases |tokens|
    {
      if |tokens| == 0 then ""
      else
        var last := tokens[|tokens| - 1];
        Detokenize(tokens[..|tokens| - 1]) + if last in reverseTokenizer then [reverseTokenizer[last]] else []
    }

    /** `loadModel` up to its `await`: starts a load only with no session and no load in progress. */
    method StartLoad() returns (started: bool)
      modifies this
      ensures started <==> old(session).None? && !old(isLoading)
      ensures started ==> isLoading && session == old(session)
      ensures !started ==> isLoading == old(isLoading)
      ensures session == old(session)
      ensures tokenizer == old(tokenizer) && reverseTokenizer == old(reverseTokenizer)
    {
      if session.Some? || isLoading {
        return false;
      }
      isLoading := true;
      return true;
    }

    /**
     * `loadModel` after its `await`: the created session is stored, a failed
     * creation (`None`) is reported as an error and leaves no session; either
     * way the load is over.
     */
    method FinishLoad(created: Option<Session>) returns (ok: bool)
      requires isLoading
      modifies this
      ensures ok <==> created.Some?
      ensures session == if created.Some? then created else old(session)
      ensures !isLoading
      ensures tokenizer == old(tokenizer) && reverseTokenizer == old(reverseTokenizer)
    {
      if created.Some? {
        session := created;
      }
      isLoading := false;
      return created.Some?;
    }

    /**
     * `generateResponse` as written, with the session run and greedy decoding
     * as the input `run`: fails with "Model not loaded" without a session.
     * Otherwise the tokens, which are Numbers, go to `BigInt64Array.from`,
     * which throws for any non-empty prompt; the error is rethrown, so only
     * the empty prompt ever reaches the session.
     */
    function GenerateResponse(prompt: string, run: seq<int> -> Result<string>): (r: Result<string>)
      reads this
      ensures session.None? ==> r == Failure("Model not loaded")
      ensures session.Some? && prompt != [] ==> r == Failure(BigIntTypeError)
      ensures session.Some? && prompt == [] ==> r == run([])
    {
      if session.None? then Failure(ModelNotLoaded)
      else
        var tokens := Tokenize(prompt);
        var numbers := seq(|tokens|, k requires 0 <= k < |tokens| => Number(tokens[k]));
        assert prompt != [] ==> numbers[0].Number?;
        match BigInt64ArrayFrom(numbers)
        case Failure(e) => Failure(e)
        case Success(data) => run(data)
    }

    /**
     * `generateResponse` as evidently intended: each token is converted with
     * `BigInt` before the tensor is built, so the session runs on the
     * prompt's tokens.
     */
    function GenerateResponseIntended(prompt: string, run: seq<int> -> Result<string>): (r: Result<string>)
      reads this
      ensures session.None? ==> r == Failure("Model not loaded")
      ensures session.Some? ==> r == run(Tokenize(prompt))
    {
      if session.None? then Failure(ModelNotLoaded)
      else
        var tokens := Tokenize(prompt);
        var data := BigInt64ArrayFrom(seq(|tokens|, k requires 0 <= k < |tokens| => BigInt(tokens[k]))).value;
        assert data == tokens;
        run(data)
    }
  }

  /** Tokenizing then decoding gives the prompt back when every character is in the vocabulary. */
  lemma {:induction false} TokenizeRoundTrip(m: ModelLoader, prompt: string)
    requires m.Valid()
    requires forall k :: 0 <= k < |prompt| ==> prompt[k] in Vocab
    ensures m.Detokenize(m.Tokenize(prompt)) == prompt
    decreases |prompt|
  {
    TokenizerRoundTrip();
    if |prompt| > 0 {
      var p' := prompt[..|prompt| - 1];
      var t := m.Tokenize(prompt);
      assert t[..|t| - 1] == m.Tokenize(p');
      TokenizeRoundTrip(m, p');
      assert prompt == p' + [prompt[|prompt| - 1]];
    }
  }

  /** Each character becomes its vocabulary position, and a character outside the vocabulary becomes 0. */
  lemma TokenizeCharacters(m: ModelLoader, prompt: string)
    requires m.Valid()
    ensures forall k :: 0 <= k < |prompt| ==>
      m.Tokenize(prompt)[k] == (if prompt[k] in Vocab then Index(prompt[k]) else 0)
    ensures forall k :: 0 <= k < |prompt| ==> 0 <= m.Tokenize(prompt)[k] < 67
  {
    VocabDistinct();
  }

  /**
   * As written, the session never sees a non-empty prompt: whatever the
   * prompt and whatever the session would answer, the reply is the same
   * TypeError.
   */
  lemma NoPromptReachesSession(m: ModelLoader, p1: string, p2: string,
                               run1: seq<int> -> Result<string>, run2: seq<int> -> Result<string>)
    requires m.session.Some? && p1 != [] && p2 != []
    ensures m.GenerateResponse(p1, run1) == m.GenerateResponse(p2, run2)
    ensures m.GenerateResponse(p1, run1).Failure?
  {
  }

  /**
   * With the intended conversion, the session is run on the prompt's tokens,
   * and two different vocabulary prompts reach it as different token lists.
   */
  lemma IntendedSeesPrompt(m: ModelLoader, p1: string, p2: string, run: seq<int> -> Result<string>)
    requires m.Valid() && m.session.Some?
    requires forall k :: 0 <= k < |p1| ==> p1[k] in Vocab
    requires forall k :: 0 <= k < |p2| ==> p2[k] in Vocab
    requires p1 != p2
    ensures m.GenerateResponseIntended(p1, run) == run(m.Tokenize(p1))
    ensures m.Tokenize(p1) != m.Tokenize(p2)
  {
    TokenizeRoundTrip(m, p1);
    TokenizeRoundTrip(m, p2);
  }

  /** A character outside the vocabulary becomes token 0, which decodes to 'a'. */
  lemma UnknownCharacter(m: ModelLoader, c: char)
    requires m.Valid()
    requires c !in Vocab
    ensures m.Tokenize([c]) == [0]
    ensures m.Detokenize([0]) == "a"
  {
    IndexOfVocab();
    assert [0][..0] == [];
  }

  /** The holder of the single instance (`ModelLoader.instance`). */
  class Registry {
    var instance: ModelLoader?

    constructor()
      ensures instance == null
    {
      instance := null;
    }

    /** `getInstance`: creates the loader on first use and returns the same one afterwards. */
    method GetInstance() returns (m: ModelLoader)
      modifies this
      ensures old(instance) != null ==> m == old(instance)
      ensures old(instance) == null ==> fresh(m) && m.Valid() && m.session.None? && !m.isLoading
      ensures instance == m
    {
      if instance == null {
        instance := new ModelLoader();
      }
      m := instance;
    }
  }

  /** Two calls of `getInstance` give the same loader. */
  method SameInstance(r: Registry) returns (a: ModelLoader, b: ModelLoader)
    modifies r
    ensures a == b
  {
    a := r.GetInstance();
    b := r.GetInstance();
  }

  /** While a load is in progress a second `loadModel` does nothing. */
  method SecondLoadIgnored(m: ModelLoader) returns (first: bool, second: bool)
    requires m.session.None? && !m.isLoading
    modifies m
    ensures first && !second && m.isLoading && m.session.None?
  {
    first := m.StartLoad();
    second := m.StartLoad();
  }
}
