/** The recursive scrubber that masks secrets in nested context values. */
module Scrubber {
  import opened Text

  datatype Value = Leaf(text: string) | List(items: seq<Value>) | Dict(entries: map<string, Value>)

  const MASKED := Leaf("[MASKED]")

  const KEYWORDS: seq<string> := ["secret", "token", "key", "password", "auth"]

  function Lower(s: string): string {
    seq(|s|, i requires 0 <= i < |s| => LowerChar(s[i]))
  }

  predicate FoundAt(s: string, word: string, i: int) {
    0 <= i <= |s| - |word| && s[i..i + |word|] == word
  }

  predicate Contains(s: string, word: string) {
    exists i :: 0 <= i <= |s| && FoundAt(s, word, i)
  }

  predicate Sensitive(key: string) {
    exists i :: 0 <= i < |KEYWORDS| && Contains(Lower(key), KEYWORDS[i])
  }

  function Sanitize(v: Value): Value {
    match v
    case Leaf(_) => v
    case List(items) => List(seq(|items|, i requires 0 <= i < |items| => Sanitize(items[i])))
    case Dict(entries) => Dict(map k | k in entries :: if Sensitive(k) then MASKED else Sanitize(entries[k]))
  }

  method SanitizeContext(v: Value) returns (clean: Value)
    ensures clean == Sanitize(v)
    decreases v
  {
    match v
    case Leaf(_) => clean := v;
    case List(items) =>
      var cleaned := [];
      for i := 0 to |items|
        invariant |cleaned| == i && forall j :: 0 <= j < i ==> cleaned[j] == Sanitize(items[j])
      {
        var item := SanitizeContext(items[i]);
        cleaned := cleaned + [item];
      }
      clean := List(cleaned);
      assert cleaned == Sanitize(v).items;
    case Dict(entries) =>
      var sanitized: map<string, Value> := map[];
      var keys := entries.Keys;
      while keys != {}
        invariant keys <= entries.Keys && sanitized.Keys == entries.Keys - keys
        invariant forall k :: k in sanitized ==> sanitized[k] == if Sensitive(k) then MASKED else Sanitize(entries[k])
      {
        var k :| k in keys;
        if Sensitive(k) {
          sanitized := sanitized[k := MASKED];
        } else {
          var inner := SanitizeContext(entries[k]);
          sanitized := sanitized[k := inner];
        }
        keys := keys - {k};
      }
      clean := Dict(sanitized);
      assert sanitized == Sanitize(v).entries;
  }

  /** Every sensitive key, at every depth, holds the mask. */
  predicate Clean(v: Value) {
    match v
    case Leaf(_) => true
    case List(items) => forall i :: 0 <= i < |items| ==> Clean(items[i])
    case Dict(entries) => forall k :: k in entries ==> if Sensitive(k) then entries[k] == MASKED else Clean(entries[k])
  }

  /** Same shape, same leaves, everywhere but below sensitive keys. */
  predicate SameOutside(v: Value, w: Value) {
    match v
    case Leaf(_) => w == v
    case List(items) =>
      w.List? && |w.items| == |items| && forall i :: 0 <= i < |items| ==> SameOutside(items[i], w.items[i])
    case Dict(entries) =>
      w.Dict? && w.entries.Keys == entries.Keys
      && forall k :: k in entries && !Sensitive(k) ==> SameOutside(entries[k], w.entries[k])
  }

  /** The scrubbed value is clean and otherwise the same. */
  lemma {:induction false} SanitizeCleans(v: Value)
    ensures Clean(Sanitize(v)) && SameOutside(v, Sanitize(v))
    decreases v
  {
    match v
    case Leaf(_) =>
    case List(items) =>
      forall i | 0 <= i < |items| ensures Clean(Sanitize(items[i])) && SameOutside(items[i], Sanitize(items[i])) {
        SanitizeCleans(items[i]);
      }
    case Dict(entries) =>
      forall k | k in entries ensures Clean(Sanitize(entries[k])) && SameOutside(entries[k], Sanitize(entries[k])) {
        SanitizeCleans(entries[k]);
      }
  }

  /** It is the only value that is clean and otherwise the same. */
  lemma {:induction false} CleanIsUnique(v: Value, w: Value)
    requires Clean(w) && SameOutside(v, w)
    ensures w == Sanitize(v)
    decreases v
  {
    match v
    case Leaf(_) =>
    case List(items) =>
      forall i | 0 <= i < |items| ensures w.items[i] == Sanitize(items[i]) { CleanIsUnique(items[i], w.items[i]); }
      assert w.items == Sanitize(v).items;
    case Dict(entries) =>
      forall k | k in entries && !Sensitive(k) ensures w.entries[k] == Sanitize(entries[k]) {
        CleanIsUnique(entries[k], w.entries[k]);
      }
      assert w.entries == Sanitize(v).entries;
  }

  lemma {:induction false} SameAsItself(v: Value)
    ensures SameOutside(v, v)
    decreases v
  {
    match v
    case Leaf(_) =>
    case List(items) => forall i | 0 <= i < |items| ensures SameOutside(items[i], items[i]) { SameAsItself(items[i]); }
    case Dict(entries) =>
      forall k | k in entries ensures SameOutside(entries[k], entries[k]) { SameAsItself(entries[k]); }
  }

  /**
   * Exactly the values whose sensitive keys already hold the mask are left alone; scrubbing twice
   * is scrubbing once.
   */
  lemma {:induction false} SanitizeFixesClean(v: Value)
    ensures Sanitize(v) == v <==> Clean(v)
    ensures Sanitize(Sanitize(v)) == Sanitize(v)
  {
    SanitizeCleans(v);
    SameAsItself(v);
    if Clean(v) { CleanIsUnique(v, v); }
    SameAsItself(Sanitize(v));
    CleanIsUnique(Sanitize(v), Sanitize(v));
  }

  // ---------------------------------------------------------------- which keys, spelled out

  /** The text spells the word, with any of its letters in upper case. */
  predicate Spells(text: string, word: string) {
    && |text| == |word|
    && forall i :: 0 <= i < |word| ==> text[i] == word[i] || text[i] as int == word[i] as int - 32
  }

  /** Somewhere in the key, one of the five words is spelled. */
  ghost predicate Secret(key: string) {
    exists before, text, after ::
      key == before + text + after
      && (Spells(text, "secret") || Spells(text, "token") || Spells(text, "key") || Spells(text, "password")
          || Spells(text, "auth"))
  }

  predicate LowerCase(word: string) { forall i :: 0 <= i < |word| ==> 'a' <= word[i] <= 'z' }

  lemma LowerSpells(s: string, word: string)
    requires LowerCase(word)
    ensures Lower(s) == word <==> Spells(s, word)
  {
    if Spells(s, word) { assert forall i :: 0 <= i < |s| ==> Lower(s)[i] == word[i]; }
  }

  lemma LowerPart(s: string, i: nat, j: nat)
    requires i <= j <= |s|
    ensures Lower(s)[i..j] == Lower(s[i..j])
  {
  }

  lemma ContainsSpelled(key: string, word: string)
    requires LowerCase(word)
    ensures Contains(Lower(key), word)
       <==> exists before, text, after :: key == before + text + after && Spells(text, word)
  {
    if Contains(Lower(key), word) {
      var i :| 0 <= i <= |Lower(key)| && FoundAt(Lower(key), word, i);
      var text := key[i..i + |word|];
      LowerPart(key, i, i + |word|);
      LowerSpells(text, word);
      assert key == key[..i] + text + key[i + |word|..];
    }
    if before, text, after :| key == before + text + after && Spells(text, word) {
      var i := |before|;
      assert key[i..i + |word|] == text;
      LowerPart(key, i, i + |word|);
      LowerSpells(text, word);
      assert FoundAt(Lower(key), word, i);
    }
  }

  lemma SensitiveIsSecret(key: string)
    ensures Sensitive(key) <==> Secret(key)
  {
    ContainsSpelled(key, "secret");
    ContainsSpelled(key, "token");
    ContainsSpelled(key, "key");
    ContainsSpelled(key, "password");
    ContainsSpelled(key, "auth");
    assert KEYWORDS[0] == "secret" && KEYWORDS[1] == "token" && KEYWORDS[2] == "key" && KEYWORDS[3] == "password";
    assert KEYWORDS[4] == "auth" && |KEYWORDS| == 5;
  }

  /** `w` is `v` with the mask under exactly the secret keys, at every depth. */
  ghost predicate Masks(v: Value, w: Value) {
    match v
    case Leaf(_) => w == v
    case List(items) => w.List? && |w.items| == |items| && forall i :: 0 <= i < |items| ==> Masks(items[i], w.items[i])
    case Dict(entries) =>
      w.Dict? && w.entries.Keys == entries.Keys
      && forall k :: k in entries ==>
           if Secret(k) then w.entries[k] == Leaf("[MASKED]") else Masks(entries[k], w.entries[k])
  }

  /** Scrubbing is exactly that. */
  lemma {:induction false} SanitizeIffMasks(v: Value, w: Value)
    ensures w == Sanitize(v) <==> Masks(v, w)
    decreases v
  {
    match v
    case Leaf(_) =>
    case List(items) =>
      if w.List? && |w.items| == |items| {
        forall i | 0 <= i < |items| ensures w.items[i] == Sanitize(items[i]) <==> Masks(items[i], w.items[i]) {
          SanitizeIffMasks(items[i], w.items[i]);
        }
        if Masks(v, w) { assert w.items == Sanitize(v).items; }
      }
    case Dict(entries) =>
      if w.Dict? && w.entries.Keys == entries.Keys {
        forall k | k in entries
          ensures Sensitive(k) <==> Secret(k)
          ensures w.entries[k] == Sanitize(entries[k]) <==> Masks(entries[k], w.entries[k])
        {
          SensitiveIsSecret(k);
          SanitizeIffMasks(entries[k], w.entries[k]);
        }
        if Masks(v, w) { assert w.entries == Sanitize(v).entries; }
      }
  }

  /** Whatever surrounds one of the words in a key, its value is masked. */
  lemma SecretMasked(entries: map<string, Value>, before: string, text: string, after: string)
    requires before + text + after in entries
    requires || Spells(text, "secret") || Spells(text, "token") || Spells(text, "key") || Spells(text, "password")
             || Spells(text, "auth")
    ensures var clean := Sanitize(Dict(entries));
            clean.Dict? && before + text + after in clean.entries
            && clean.entries[before + text + after] == Leaf("[MASKED]")
  {
    SanitizeIffMasks(Dict(entries), Sanitize(Dict(entries)));
    assert Secret(before + text + after);
  }
}
