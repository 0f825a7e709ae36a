/** Parameter names on their strings: what splitting at the dots yields, what a
    component is, and which layer a name lies in. */
module ParameterNames {
  import opened Wrappers
  import opened Decimals
  import opened ParameterPlans

  /** A name without dots is its own and only component, ... */
  lemma {:induction false} OneComponent(name: string, part: string)
    requires '.' !in name
    ensures ComponentsFrom(name, part) == [part + name]
  {
    if name == "" {
      assert part + name == part;
    } else {
      OneComponent(name[1..], part + [name[0]]);
      assert part + [name[0]] + name[1..] == part + name;
    }
  }

  /** ... and one before a dot is the first component. */
  lemma {:induction false} FirstComponent(name: string, rest: string, part: string)
    requires '.' !in name
    ensures ComponentsFrom(name + "." + rest, part) == [part + name] + Components(rest)
  {
    var all := name + "." + rest;
    if name == "" {
      assert all[0] == '.' && all[1..] == rest && part + name == part;
    } else {
      FirstComponent(name[1..], rest, part + [name[0]]);
      assert all[0] == name[0] && all[1..] == name[1..] + "." + rest;
      assert part + [name[0]] + name[1..] == part + name;
    }
  }

  function Join(cs: seq<string>): string
    requires cs != []
  {
    if |cs| == 1 then cs[0] else cs[0] + "." + Join(cs[1..])
  }

  ghost predicate DotFree(cs: seq<string>) {
    forall i :: 0 <= i < |cs| ==> '.' !in cs[i]
  }

  lemma {:induction false} JoinFrom(name: string, part: string)
    requires '.' !in part
    ensures ComponentsFrom(name, part) != [] && DotFree(ComponentsFrom(name, part))
    ensures Join(ComponentsFrom(name, part)) == part + name
  {
    if name == "" {
      assert part + name == part;
    } else if name[0] == '.' {
      JoinFrom(name[1..], "");
      var rest := ComponentsFrom(name[1..], "");
      assert ([part] + rest)[1..] == rest;
      assert part + "." + ("" + name[1..]) == part + name;
    } else {
      JoinFrom(name[1..], part + [name[0]]);
      assert part + [name[0]] + name[1..] == part + name;
    }
  }

  /** The components of a name hold no dots and join to the name, ... */
  lemma ComponentsJoin(name: string)
    ensures Components(name) != [] && DotFree(Components(name)) && Join(Components(name)) == name
  {
    JoinFrom(name, "");
    assert "" + name == name;
  }

  /** ... and nothing else does. */
  lemma {:induction false} JoinComponents(cs: seq<string>)
    requires cs != [] && DotFree(cs)
    ensures Components(Join(cs)) == cs
  {
    if |cs| == 1 {
      OneComponent(cs[0], "");
      assert "" + cs[0] == cs[0];
    } else {
      JoinComponents(cs[1..]);
      FirstComponent(cs[0], Join(cs[1..]), "");
      assert "" + cs[0] == cs[0] && cs == [cs[0]] + cs[1..];
    }
  }

  /** The word stands in the name between dots, or at one of its ends. */
  ghost predicate Occurs(word: string, name: string) {
    exists before: string, after: string :: OccursAt(word, name, before, after)
  }

  ghost predicate OccursAt(word: string, name: string, before: string, after: string) {
    "." + name + "." == before + "." + word + "." + after
  }

  lemma JoinSplits(cs: seq<string>)
    requires |cs| > 1
    ensures "." + Join(cs) + "." == "." + cs[0] + ("." + Join(cs[1..]) + ".")
  {
  }

  lemma {:induction false} ComponentOccurs(cs: seq<string>, i: nat) returns (before: string, after: string)
    requires i < |cs|
    ensures OccursAt(cs[i], Join(cs), before, after)
  {
    if |cs| == 1 {
      before, after := "", "";
    } else if i == 0 {
      before, after := "", Join(cs[1..]) + ".";
      JoinSplits(cs);
    } else {
      var deeper, rest := ComponentOccurs(cs[1..], i - 1);
      before, after := "." + cs[0] + deeper, rest;
      JoinSplits(cs);
      assert "." + cs[0] + (deeper + "." + cs[i] + "." + rest) == before + "." + cs[i] + "." + after;
    }
  }

  /** Two dot-free words before their first dots agree. */
  lemma SameHead(a: string, x: string, b: string, y: string)
    requires '.' !in a && '.' !in b && a + "." + x == b + "." + y
    ensures a == b
  {
    var s := a + "." + x;
    assert s[|a|] == '.' && s[|b|] == '.';
    assert forall i :: 0 <= i < |a| ==> s[i] == a[i];
    assert forall i :: 0 <= i < |b| ==> s[i] == b[i];
    assert |a| == |b|;
  }

  /** A prefix that starts and ends at dots reaches past the first word. */
  lemma PastHead(word: string, rest: string, before: string, tail: string)
    requires '.' !in word && "." + word + rest == before + "." + tail && before != "" && "." <= rest
    ensures "." + word <= before && rest == before[|word| + 1..] + "." + tail
  {
    var s := "." + word + rest;
    assert s[|before|] == '.';
    assert forall i :: 0 < i <= |word| ==> s[i] == word[i - 1];
    assert |before| > |word|;
    assert before == s[..|before|];
    assert rest == s[|word| + 1..];
  }

  lemma {:induction false} OccurrenceIsComponent(cs: seq<string>, word: string, before: string, after: string)
    requires cs != [] && DotFree(cs) && '.' !in word && OccursAt(word, Join(cs), before, after)
    ensures word in cs
  {
    var rest := if |cs| == 1 then "." else "." + Join(cs[1..]) + ".";
    var tail := word + "." + after;
    assert "." + Join(cs) + "." == "." + cs[0] + rest;
    assert before + "." + word + "." + after == before + "." + tail;
    if before == "" {
      assert ("." + cs[0] + rest)[1..] == cs[0] + "." + rest[1..];
      assert (before + "." + tail)[1..] == word + "." + after;
      SameHead(cs[0], rest[1..], word, after);
    } else {
      PastHead(cs[0], rest, before, tail);
      var b := before[|cs[0]| + 1..];
      assert |rest| >= |b| + 2;
      assert |cs| > 1;
      assert b + "." + tail == b + "." + word + "." + after;
      OccurrenceIsComponent(cs[1..], word, b, after);
    }
  }

  /** A dot-free word is a component exactly when it occurs between dots. */
  lemma OccursExactly(word: string, name: string)
    requires '.' !in word
    ensures word in Components(name) <==> Occurs(word, name)
  {
    var cs := Components(name);
    ComponentsJoin(name);
    if word in cs {
      var i :| 0 <= i < |cs| && cs[i] == word;
      var before, after := ComponentOccurs(cs, i);
    }
    if Occurs(word, name) {
      var before, after :| OccursAt(word, name, before, after);
      OccurrenceIsComponent(cs, word, before, after);
    }
  }

  ghost predicate Mentions(name: string, words: set<string>) {
    exists w :: w in words && Occurs(w, name)
  }

  /** A name is owned exactly when no borrowed word stands in it between dots, and
      it is a registered linear exactly when one of those does. */
  lemma NamesExactly(name: string)
    ensures IsOwned(name) <==> !Mentions(name, {"embed_tokens", "lm_head", "target_model", "target_embedding"})
    ensures IsLoraLinear(name) <==> Mentions(name, {
      "fc", "q_proj", "k_proj", "v_proj", "qkv_proj", "o_proj", "gate_proj", "gate_up_proj", "up_proj", "down_proj"})
  {
    forall w | w in Borrowed || w in LoraLinear ensures w in Components(name) <==> Occurs(w, name) {
      assert '.' !in w;
      OccursExactly(w, name);
    }
  }

  // ----- layers -----

  predicate LayerAt(cs: seq<string>, i: nat) {
    i + 1 < |cs| && cs[i] == "layers" && IsNumeral(cs[i + 1])
  }

  /** The name lies in layer l: the first "layers" that a numeral follows is
      followed by one of that value. */
  ghost predicate InLayer(name: string, l: nat) {
    var cs := Components(name);
    exists i: nat :: LayerAt(cs, i) && NumeralValue(cs[i + 1]) == l && forall j: nat :: j < i ==> !LayerAt(cs, j)
  }

  lemma {:induction false} LayerInExactly(cs: seq<string>) returns (i: nat)
    ensures LayerIn(cs).Some? ==>
      LayerAt(cs, i) && LayerIn(cs) == Some(NumeralValue(cs[i + 1])) && forall j: nat :: j < i ==> !LayerAt(cs, j)
    ensures LayerIn(cs).None? ==> forall j: nat :: !LayerAt(cs, j)
  {
    i := 0;
    if |cs| >= 2 && !(cs[0] == "layers" && IsNumeral(cs[1])) {
      var k := LayerInExactly(cs[1..]);
      i := k + 1;
      forall j: nat | LayerAt(cs, j) ensures j > 0 && LayerAt(cs[1..], j - 1) { }
    }
  }

  lemma LayerExactly(name: string, l: nat)
    ensures LayerIndex(name) == Some(l) <==> InLayer(name, l)
  {
    var cs := Components(name);
    var i := LayerInExactly(cs);
    if InLayer(name, l) {
      var k: nat :| LayerAt(cs, k) && NumeralValue(cs[k + 1]) == l && forall j: nat :: j < k ==> !LayerAt(cs, j);
      assert !(i < k) && !(k < i);
    }
  }
}
