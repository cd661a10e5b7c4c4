/**
 * Session identifiers of the relay (bin/server.ts): ten characters drawn
 * from the 62 ASCII digits and letters. `Math.random` is replaced by a
 * sequence of draws, each already scaled to 0..61 as
 * `Math.floor(Math.random() * 62)` would give it.
 */
module SessionIds {

  const ALPHABET_SIZE: nat := 62
  const ID_LENGTH: nat := 10

  predicate IsAlphanumeric(c: char)
  {
    '0' <= c <= '9' || 'A' <= c <= 'Z' || 'a' <= c <= 'z'
  }

  predicate IsAlphanumericString(s: string)
  {
    forall k :: 0 <= k < |s| ==> IsAlphanumeric(s[k])
  }

  /** Every draw is one that `Math.floor(Math.random() * 62)` can produce. */
  predicate ValidDraws(draws: seq<nat>)
  {
    forall k :: 0 <= k < |draws| ==> draws[k] < ALPHABET_SIZE
  }

  /** The position of an alphanumeric character in the alphabet digits, upper case, lower case. */
  function ChoiceOf(c: char): nat
  {
    if '0' <= c <= '9' then (c as int - '0' as int) as nat
    else if 'A' <= c <= 'Z' then (c as int - 'A' as int + 10) as nat
    else if 'a' <= c <= 'z' then (c as int - 'a' as int + 36) as nat
    else 0
  }

  /** `mapCharacter`: digits for 0..9, upper case for 10..35, lower case for 36..61. */
  function MapCharacter(choice: nat): (c: char)
    requires choice < ALPHABET_SIZE
    ensures IsAlphanumeric(c)
    ensures choice < 10 <==> '0' <= c <= '9'
    ensures 10 <= choice < 36 <==> 'A' <= c <= 'Z'
    ensures 36 <= choice <==> 'a' <= c <= 'z'
    ensures ChoiceOf(c) == choice
  {
    if choice < 10 then (0x30 + choice) as char
    else if choice < 10 + 26 then (0x41 + choice - 10) as char
    else (0x61 + choice - 10 - 26) as char
  }

  /** Every alphanumeric character is produced by exactly one draw. */
  lemma MapCharacterOnto(c: char)
    requires IsAlphanumeric(c)
    ensures ChoiceOf(c) < ALPHABET_SIZE && MapCharacter(ChoiceOf(c)) == c
  {
  }

  /** The identifier a sequence of draws produces, one character per draw. */
  function IdOf(draws: seq<nat>): (id: string)
    requires ValidDraws(draws)
    ensures |id| == |draws| && IsAlphanumericString(id)
  {
    seq(|draws|, k requires 0 <= k < |draws| => MapCharacter(draws[k]))
  }

  /** Reads the draws back out of an identifier. */
  function DrawsOf(id: string): (draws: seq<nat>)
    ensures |draws| == |id|
  {
    seq(|id|, k requires 0 <= k < |id| => ChoiceOf(id[k]))
  }

  lemma {:induction false} DrawsOfIdOf(draws: seq<nat>)
    requires ValidDraws(draws)
    ensures DrawsOf(IdOf(draws)) == draws
  {
    var id := IdOf(draws);
    forall k | 0 <= k < |draws|
      ensures DrawsOf(id)[k] == draws[k]
    {
      assert id[k] == MapCharacter(draws[k]);
    }
  }

  /** Different draws give different identifiers. */
  lemma IdOfInjective(a: seq<nat>, b: seq<nat>)
    requires ValidDraws(a) && ValidDraws(b)
    requires IdOf(a) == IdOf(b)
    ensures a == b
  {
    DrawsOfIdOf(a);
    DrawsOfIdOf(b);
  }

  /** Every alphanumeric string of length n is the identifier of some n draws. */
  lemma {:induction false} IdOfOnto(id: string)
    requires IsAlphanumericString(id)
    ensures ValidDraws(DrawsOf(id)) && IdOf(DrawsOf(id)) == id
  {
    forall k | 0 <= k < |id|
      ensures DrawsOf(id)[k] < ALPHABET_SIZE && MapCharacter(DrawsOf(id)[k]) == id[k]
    {
      MapCharacterOnto(id[k]);
    }
  }

  /** `randomId(length)`: appends one mapped character per draw. */
  method RandomId(length: nat, draws: seq<nat>) returns (id: string)
    requires length <= |draws| && ValidDraws(draws)
    ensures |id| == length && IsAlphanumericString(id)
    ensures id == IdOf(draws[..length])
  {
    id := "";
    var i := 0;
    while i < length
      invariant 0 <= i <= length
      invariant id == IdOf(draws[..i])
    {
      id := id + [MapCharacter(draws[i])];
      i := i + 1;
    }
  }
}
