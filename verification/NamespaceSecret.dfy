/**
 The namespace's own secret: tokens that are missing are generated and stored, and every versioned
 secret is made from what a call returns. Random generation is any function from token type to value.
 */
module NamespaceSecret {
  import opened Wrappers

  type Tokens = map<string, string>

  function TokenTypes(): seq<string> {
    ["hec_token", "password", "pass4SymmKey", "idxc_secret", "shc_secret"]
  }

  /** The tokens, with each missing one of the given types generated. */
  function Completed(tokens: Tokens, types: seq<string>, generated: string -> string): Tokens
    decreases |types|
  {
    if types == [] then tokens
    else
      var t := types[0];
      Completed(if t in tokens then tokens else tokens[t := generated(t)], types[1..], generated)
  }

  /** What a call returns, and the secret stored after it. */
  datatype Applied = Applied(result: Option<Tokens>, stored: Option<Tokens>)

  /** A write that takes effect stores the tokens; an error is returned unless it is acknowledged. */
  function Write(stored: Option<Tokens>, tokens: Tokens, fate: Fate): Applied {
    Applied(if fate.Acked? then Some(tokens) else None, if fate.Refused? then stored else Some(tokens))
  }

  /** ApplyNamespaceScopedSecretObject; `got` says whether reading an existing secret succeeds. */
  function Apply(stored: Option<Tokens>, got: bool, fate: Fate, generated: string -> string): Applied {
    if got && stored.Some? then
      var complete := Completed(stored.value, TokenTypes(), generated);
      if complete == stored.value then Applied(stored, stored) else Write(stored, complete, fate)
    else
      var made := Completed(map[], TokenTypes(), generated);
      // creating a secret that exists leaves it alone, and passes for success
      if stored.None? then Write(stored, made, fate)
      else Applied(if fate.Acked? then Some(made) else None, stored)
  }

  class SecretApi {
    var stored: Option<Tokens>

    constructor (stored: Option<Tokens>)
      ensures this.stored == stored
    {
      this.stored := stored;
    }

    method ApplyNamespaceScopedSecretObject(got: bool, fate: Fate,
                                            generated: string -> string) returns (result: Option<Tokens>)
      modifies this
      ensures Applied(result, stored) == Apply(old(stored), got, fate, generated)
    {
      var found := got && stored.Some?;
      var current, updateNeeded := AddMissing(if found then stored.value else map[], TokenTypes(), generated);
      if found && !updateNeeded { return Some(current); }
      if (found || stored.None?) && !fate.Refused? {
        stored := Some(current);
      }
      result := if fate.Acked? then Some(current) else None;
    }
  }

  /** The loop over the token types. */
  method AddMissing(start: Tokens, types: seq<string>, generated: string -> string) returns (current: Tokens,
                    updateNeeded: bool)
    ensures current == Completed(start, types, generated)
    ensures updateNeeded <==> current != start
  {
    current, updateNeeded := start, false;
    for i := 0 to |types|
      invariant Completed(start, types, generated) == Completed(current, types[i..], generated)
      invariant start.Keys <= current.Keys
      invariant if updateNeeded then current != start else current == start
    {
      if types[i] !in current {
        GrowthShows(start, current, types[i], generated(types[i]));
        current := current[types[i] := generated(types[i])];
        updateNeeded := true;
      }
    }
  }

  lemma GrowthShows(start: Tokens, current: Tokens, t: string, token: string)
    requires start.Keys <= current.Keys && t !in current
    ensures current[t := token] != start && start.Keys <= current[t := token].Keys
  {
    assert t in current[t := token].Keys && t !in start.Keys;
  }

  /** Completing keeps every token there was, and leaves no type without one. */
  lemma {:induction false} CompletedKeeps(tokens: Tokens, types: seq<string>, generated: string -> string)
    ensures var c := Completed(tokens, types, generated);
      && (forall t <- tokens :: t in c && c[t] == tokens[t])
      && (forall t <- types :: t in c)
      && (forall t <- c :: t in tokens || (t in types && c[t] == generated(t)))
    decreases |types|
  {
    if types != [] {
      var t := types[0];
      CompletedKeeps(if t in tokens then tokens else tokens[t := generated(t)], types[1..], generated);
      assert types == [types[0]] + types[1..];
    }
  }

  predicate HasAllTypes(tokens: Tokens) {
    forall t <- TokenTypes() :: t in tokens
  }

  lemma {:induction false} CompleteIsKept(tokens: Tokens, types: seq<string>, generated: string -> string)
    requires forall t <- types :: t in tokens
    ensures Completed(tokens, types, generated) == tokens
    decreases |types|
  {
    if types != [] {
      assert types == [types[0]] + types[1..];
      CompleteIsKept(tokens, types[1..], generated);
    }
  }

  /** `tokens` are those of `base`, with one newly generated for each of the five types `base` lacks, and no more. */
  predicate FilledIn(base: Tokens, tokens: Tokens, generated: string -> string) {
    && tokens.Keys == base.Keys + {"hec_token", "password", "pass4SymmKey", "idxc_secret", "shc_secret"}
    && forall t <- tokens :: tokens[t] == if t in base then base[t] else generated(t)
  }

  lemma FiveTypes(t: string)
    ensures t in TokenTypes() <==> t in {"hec_token", "password", "pass4SymmKey", "idxc_secret", "shc_secret"}
  {
  }

  lemma CompletedFillsIn(base: Tokens, generated: string -> string)
    ensures FilledIn(base, Completed(base, TokenTypes(), generated), generated)
    ensures Completed(base, TokenTypes(), generated) == base <==> HasAllTypes(base)
  {
    var types, five := TokenTypes(), {"hec_token", "password", "pass4SymmKey", "idxc_secret", "shc_secret"};
    CompletedKeeps(base, types, generated);
    forall t ensures t in types <==> t in five {
      FiveTypes(t);
    }
    if HasAllTypes(base) {
      CompleteIsKept(base, types, generated);
    }
  }

  /**
   How a call ends. A write is needed unless a secret with every type of token was read; an error is
   returned exactly when a needed write is not acknowledged. The tokens returned are those read, filled in,
   or all new ones. The same are stored if a write was needed and not refused, except that a secret that
   exists but could not be read stays as it is.
   */
  lemma CallEnds(stored: Option<Tokens>, got: bool, fate: Fate, generated: string -> string)
    ensures var a := Apply(stored, got, fate, generated);
      var found := got && stored.Some?;
      var base := if found then stored.value else map[];
      var needed := !(found && HasAllTypes(base));
      && (a.result.None? <==> needed && !fate.Acked?)
      && (a.result.Some? ==> FilledIn(base, a.result.value, generated))
      && (if needed && !fate.Refused? && (found || stored.None?)
          then a.stored.Some? && FilledIn(base, a.stored.value, generated)
          else a.stored == stored)
  {
    CompletedFillsIn(map[], generated);
    if stored.Some? {
      CompletedFillsIn(stored.value, generated);
    }
    assert "hec_token" in TokenTypes();
  }

  /** Whatever is returned has every type of token; and the next call that can read it returns it unchanged. */
  lemma ReturnedIsComplete(stored: Option<Tokens>, got: bool, fate: Fate, generated: string -> string,
                           nextFate: Fate, nextGenerated: string -> string)
    ensures var a := Apply(stored, got, fate, generated);
      && (a.result.Some? ==> HasAllTypes(a.result.value))
      && (a.result.Some? && a.result == a.stored ==> Apply(a.stored, true, nextFate, nextGenerated) == a)
  {
    CompletedKeeps(map[], TokenTypes(), generated);
    if stored.Some? {
      CompletedKeeps(stored.value, TokenTypes(), generated);
    }
    var a := Apply(stored, got, fate, generated);
    if a.result.Some? {
      CompleteIsKept(a.result.value, TokenTypes(), nextGenerated);
    }
  }

  datatype Step = Step(got: bool, fate: Fate, generated: string -> string)

  function Run(stored: Option<Tokens>, steps: seq<Step>): Option<Tokens> {
    if steps == [] then stored
    else
      var s := steps[|steps| - 1];
      Apply(Run(stored, steps[..|steps| - 1]), s.got, s.fate, s.generated).stored
  }

  /** Over any run, however its calls go, a token once stored is never changed or lost. */
  lemma {:induction false} StoredTokensAreKept(stored: Option<Tokens>, steps: seq<Step>, t: string)
    requires stored.Some? && t in stored.value
    ensures Run(stored, steps).Some? && t in Run(stored, steps).value && Run(stored, steps).value[t] == stored.value[t]
    decreases |steps|
  {
    if steps != [] {
      var k := |steps| - 1;
      StoredTokensAreKept(stored, steps[..k], t);
      CompletedKeeps(Run(stored, steps[..k]).value, TokenTypes(), steps[k].generated);
    }
  }

  /**
   What is returned is what is stored, unless reading an existing secret failed: then the caller gets
   newly generated tokens that are stored nowhere, and they differ unless generation repeats itself.
   */
  lemma ReturnedIsStoredIff(stored: Option<Tokens>, got: bool, fate: Fate, generated: string -> string)
    requires Apply(stored, got, fate, generated).result.Some?
    ensures var a := Apply(stored, got, fate, generated);
      a.result == a.stored <==> (got || stored.None? || stored.value == Completed(map[], TokenTypes(), generated))
  {
  }
}
