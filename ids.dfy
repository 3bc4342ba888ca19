/** Human-readable record identifiers (`P001`, `S002`, `O003`): the
    generator as `_generate_id` is written, and a corrected generator that
    never hands out an identifier already in use. */
module Ids {

  import opened Wrappers
  import opened Numerals
  import opened Values

  function LowerChar(c: char): char {
    if 'A' <= c <= 'Z' then ((c as int) + 32) as char else c
  }

  /** `str.lower()` on ASCII text. */
  function Lower(s: string): (r: string)
    ensures |r| == |s|
    ensures forall i :: 0 <= i < |r| ==> r[i] == LowerChar(s[i])
  {
    if s == [] then [] else [LowerChar(s[0])] + Lower(s[1..])
  }

  /** The field `_generate_id` searches: the lower-cased prefix then `_id`. */
  function SearchKey(prefix: string): (key: string)
    ensures |key| == |prefix| + 3 && key[|prefix|..] == "_id"
    ensures forall i :: 0 <= i < |prefix| ==> key[i] == LowerChar(prefix[i])
  {
    Lower(prefix) + "_id"
  }

  /** A value the pattern `^<prefix>\d+$` accepts: a string made of the
      prefix followed by one or more ASCII digits. */
  predicate IsIdFor(v: Value, prefix: string) {
    v.Str? && |v.s| > |prefix| && v.s[..|prefix|] == prefix && AllDigits(v.s[|prefix|..])
  }

  /** Document `d` holds, under `key`, a value the pattern accepts. */
  predicate HoldsId(d: Document, key: string, prefix: string) {
    key in d && IsIdFor(d[key], prefix)
  }

  /** The values the identifier query finds, in store order. */
  function Candidates(docs: seq<Document>, key: string, prefix: string): (found: seq<string>)
    ensures forall x :: x in found ==> IsIdFor(Str(x), prefix)
    ensures forall d: Document :: d in docs && HoldsId(d, key, prefix) ==> d[key].s in found
    ensures forall x :: x in found ==> exists d: Document :: d in docs && HoldsId(d, key, prefix) && d[key] == Str(x)
    decreases |docs|
  {
    if docs == [] then []
    else
      var init := docs[..|docs| - 1];
      var d := docs[|docs| - 1];
      assert docs == init + [d];
      Candidates(init, key, prefix) + (if HoldsId(d, key, prefix) then [d[key].s] else [])
  }

  /** Byte-wise string order, the order MongoDB sorts string values in. */
  predicate LexLe(a: string, b: string)
    decreases |a|
  {
    |a| == 0 || (|b| > 0 && (a[0] < b[0] || (a[0] == b[0] && LexLe(a[1..], b[1..]))))
  }

  lemma {:induction false} LexLeReflexive(a: string)
    ensures LexLe(a, a)
    decreases |a|
  {
    if |a| > 0 {
      LexLeReflexive(a[1..]);
    }
  }

  lemma {:induction false} LexLeTotal(a: string, b: string)
    ensures LexLe(a, b) || LexLe(b, a)
    decreases |a|
  {
    if |a| > 0 && |b| > 0 && a[0] == b[0] {
      LexLeTotal(a[1..], b[1..]);
    }
  }

  lemma {:induction false} LexLeTransitive(a: string, b: string, c: string)
    requires LexLe(a, b) && LexLe(b, c)
    ensures LexLe(a, c)
    decreases |a|
  {
    if |a| > 0 && a[0] == b[0] && b[0] == c[0] {
      LexLeTransitive(a[1..], b[1..], c[1..]);
    }
  }

  /** Two strings that each sort no later than the other are equal, so the
      order leaves no tie to break. */
  lemma {:induction false} LexLeAntisymmetric(a: string, b: string)
    requires LexLe(a, b) && LexLe(b, a)
    ensures a == b
    decreases |a|
  {
    if |a| > 0 {
      LexLeAntisymmetric(a[1..], b[1..]);
      assert a == [a[0]] + a[1..] && b == [b[0]] + b[1..];
    }
  }

  /** The first value of a descending sort: one of `xs`, and no value of
      `xs` sorts after it. */
  function MaxLex(xs: seq<string>): (m: string)
    requires |xs| > 0
    ensures m in xs
    ensures forall x :: x in xs ==> LexLe(x, m)
    decreases |xs|
  {
    if |xs| == 1 then
      LexLeReflexive(xs[0]);
      xs[0]
    else
      var rest := MaxLex(xs[1..]);
      assert xs == [xs[0]] + xs[1..];
      if LexLe(xs[0], rest) then rest
      else
        LexLeTotal(xs[0], rest);
        LexLeReflexive(xs[0]);
        assert forall x :: x in xs[1..] ==> LexLe(x, xs[0]) by {
          forall x | x in xs[1..] ensures LexLe(x, xs[0]) {
            LexLeTransitive(x, rest, xs[0]);
          }
        }
        xs[0]
  }

  /** `f"{prefix}{num:03d}"`. */
  function FormatId(prefix: string, num: nat): string {
    prefix + ZeroPad(Decimal(num), 3)
  }

  /** `_generate_id` as written: it searches the field `SearchKey(prefix)`,
      takes the greatest matching value in string order, drops its FIRST
      CHARACTER (not the prefix), parses the rest and adds one. With no
      match, or when the parse fails, the answer is `prefix + "001"`. */
  function GenerateId(docs: seq<Document>, prefix: string): (id: string)
    ensures IsIdFor(Str(id), prefix)
  {
    var found := Candidates(docs, SearchKey(prefix), prefix);
    if |found| == 0 then
      FirstId(prefix);
      prefix + "001"
    else
      var last := MaxLex(found);
      match ParseInt(last[1..])
      case None =>
        FirstId(prefix);
        prefix + "001"
      case Some(num) =>
        FormatIdParses(prefix, num + 1);
        FormatId(prefix, num + 1)
  }

  /** The number a matching value carries after its prefix. */
  function SuffixValue(x: string, prefix: string): nat
    requires IsIdFor(Str(x), prefix)
  {
    ValueOf(x[|prefix|..])
  }

  /** The fallback `prefix + "001"` is identifier number 1. */
  lemma FirstId(prefix: string)
    ensures FormatId(prefix, 1) == prefix + "001"
    ensures IsIdFor(Str(prefix + "001"), prefix)
  {
    assert ZeroPad(Decimal(1), 3) == "001";
    FormatIdParses(prefix, 1);
  }

  lemma FormatIdParses(prefix: string, num: nat)
    ensures IsIdFor(Str(FormatId(prefix, num)), prefix)
    ensures SuffixValue(FormatId(prefix, num), prefix) == num
  {
    var id := FormatId(prefix, num);
    assert id[..|prefix|] == prefix;
    assert id[|prefix|..] == ZeroPad(Decimal(num), 3);
    PaddedRoundTrip(num, 3);
  }

  /** With nothing matching the pattern under the searched field, the
      generator falls back to the first identifier. */
  lemma GenerateIdDefault(docs: seq<Document>, prefix: string)
    requires forall d: Document :: d in docs ==> !HoldsId(d, SearchKey(prefix), prefix)
    ensures GenerateId(docs, prefix) == prefix + "001"
    ensures GenerateId(docs, prefix) == FormatId(prefix, 1)
  {
    FirstId(prefix);
  }

  /** With a one-character prefix and at least one match, the identifier is
      the prefix and the number of the greatest match in string order plus
      one, padded to at least three digits. */
  lemma GenerateIdFollowsGreatest(docs: seq<Document>, prefix: string)
    requires |prefix| == 1
    requires exists d: Document :: d in docs && HoldsId(d, SearchKey(prefix), prefix)
    ensures exists d: Document ::
      && d in docs && HoldsId(d, SearchKey(prefix), prefix)
      && (forall e: Document :: e in docs && HoldsId(e, SearchKey(prefix), prefix) ==> LexLe(e[SearchKey(prefix)].s, d[SearchKey(prefix)].s))
      && GenerateId(docs, prefix) == FormatId(prefix, SuffixValue(d[SearchKey(prefix)].s, prefix) + 1)
  {
    var key := SearchKey(prefix);
    var found := Candidates(docs, key, prefix);
    var w: Document :| w in docs && HoldsId(w, key, prefix);
    assert w[key].s in found;
    var last := MaxLex(found);
    assert last[1..] == last[|prefix|..];
    var d: Document :| d in docs && HoldsId(d, key, prefix) && d[key] == Str(last);
    assert GenerateId(docs, prefix) == FormatId(prefix, SuffixValue(last, prefix) + 1);
    forall e: Document | e in docs && HoldsId(e, key, prefix)
      ensures LexLe(e[key].s, d[key].s)
    {
      assert e[key].s in found;
    }
  }

  /** A prefix whose second character is a letter never survives the
      parse: dropping one character leaves a letter in front, `int(...)`
      raises ValueError, and the generator always answers `prefix + "001"`. */
  lemma GenerateIdLongPrefix(docs: seq<Document>, prefix: string)
    requires |prefix| >= 2 && ('A' <= prefix[1] <= 'Z' || 'a' <= prefix[1] <= 'z')
    ensures GenerateId(docs, prefix) == prefix + "001"
  {
    var found := Candidates(docs, SearchKey(prefix), prefix);
    if |found| > 0 {
      var last := MaxLex(found);
      assert last[1..][0] == prefix[1];
      assert ParseInt(last[1..]).None?;
    }
  }

  /** A document that lacks the searched field has no say in the next
      identifier. */
  lemma GenerateIdIgnores(docs: seq<Document>, d: Document, prefix: string)
    requires SearchKey(prefix) !in d
    ensures GenerateId(docs + [d], prefix) == GenerateId(docs, prefix)
  {
    assert (docs + [d])[..|docs|] == docs;
    assert Candidates(docs + [d], SearchKey(prefix), prefix) == Candidates(docs, SearchKey(prefix), prefix);
  }

  /** `P009` is followed by `P010`. */
  lemma GenerateIdAfterP009()
    ensures GenerateId([map["p_id" := Str("P009")]], "P") == "P010"
  {
    var docs := [map["p_id" := Str("P009")]];
    assert SearchKey("P") == "p_id";
    assert IsIdFor(Str("P009"), "P") by {
      assert "P009"[1..] == "009";
    }
    assert Candidates(docs, "p_id", "P") == ["P009"] by {
      assert docs[..0] == [];
    }
    assert "P009"[1..] == "009";
    assert ValueOf("009") == 9 by {
      assert "009"[..2] == "00";
      assert "00"[..1] == "0";
      assert "0"[..0] == "";
    }
    assert Decimal(10) == "10";
  }

  /** In string order `P1000` comes before `P999`. */
  lemma P999OutranksP1000()
    ensures LexLe("P1000", "P999") && !LexLe("P999", "P1000")
    ensures MaxLex(["P1000", "P999"]) == "P999"
  {
    assert "P1000"[1..] == "1000" && "P999"[1..] == "999";
    assert ["P1000", "P999"][1..] == ["P999"];
  }

  /** The identifier after `P999` is `P1000`. */
  lemma NumberAfterP999()
    ensures ParseInt("P999"[1..]) == Some(999)
    ensures FormatId("P", 999 + 1) == "P1000"
  {
    assert "P999"[1..] == "999";
    assert "999"[..2] == "99" && "99"[..1] == "9" && "9"[..0] == "";
    assert Decimal(1000) == "1000";
  }

  /** String order puts `P999` after `P1000`: once both are in the store,
      the generator hands out `P1000` again, an identifier a document
      already holds. */
  lemma GenerateIdRepeatsP1000(docs: seq<Document>)
    requires Candidates(docs, SearchKey("P"), "P") == ["P1000", "P999"]
    ensures GenerateId(docs, "P") == "P1000"
    ensures exists d: Document :: d in docs && SearchKey("P") in d && d[SearchKey("P")] == Str(GenerateId(docs, "P"))
  {
    var found := Candidates(docs, SearchKey("P"), "P");
    P999OutranksP1000();
    NumberAfterP999();
    assert "P1000" in found;
  }

  /** Two products holding `P1000` and `P999` under the searched field
      give exactly the candidates of the example above. */
  lemma P1000AndP999Found()
    ensures Candidates([map["p_id" := Str("P1000")], map["p_id" := Str("P999")]], SearchKey("P"), "P") == ["P1000", "P999"]
  {
    var docs := [map["p_id" := Str("P1000")], map["p_id" := Str("P999")]];
    assert SearchKey("P") == "p_id";
    assert "P1000"[1..] == "1000" && "P999"[1..] == "999";
    assert docs[..1] == [docs[0]];
    assert docs[..1][..0] == [];
  }

  /** The greatest number carried by the values in `found`, 0 for none. */
  function MaxSuffix(found: seq<string>, prefix: string): (m: nat)
    requires forall x :: x in found ==> IsIdFor(Str(x), prefix)
    ensures forall x :: x in found ==> SuffixValue(x, prefix) <= m
    ensures |found| > 0 ==> exists x :: x in found && SuffixValue(x, prefix) == m
    decreases |found|
  {
    if found == [] then 0
    else
      var init := found[..|found| - 1];
      var x := found[|found| - 1];
      assert found == init + [x];
      var m := MaxSuffix(init, prefix);
      if SuffixValue(x, prefix) > m then SuffixValue(x, prefix) else m
  }

  /** The evidently intended generator: it searches the kind's own
      identifier field and takes the numerically greatest match, so the
      identifier it gives is new to the store. */
  function NextFreshId(docs: seq<Document>, key: string, prefix: string): (id: string)
    ensures IsIdFor(Str(id), prefix)
    ensures forall d: Document :: d in docs && key in d ==> d[key] != Str(id)
    ensures forall d: Document :: d in docs && HoldsId(d, key, prefix) ==> SuffixValue(d[key].s, prefix) < SuffixValue(id, prefix)
  {
    var found := Candidates(docs, key, prefix);
    var m := MaxSuffix(found, prefix);
    FormatIdParses(prefix, m + 1);
    FormatId(prefix, m + 1)
  }

  /** Documents numbered 1 to N under `key` are followed by number N + 1. */
  lemma {:induction false} SequentialMax(docs: seq<Document>, key: string, prefix: string)
    requires forall i :: 0 <= i < |docs| ==> key in docs[i] && docs[i][key] == Str(FormatId(prefix, i + 1))
    ensures MaxSuffix(Candidates(docs, key, prefix), prefix) == |docs|
    decreases |docs|
  {
    if docs != [] {
      var n := |docs|;
      var init := docs[..n - 1];
      SequentialMax(init, key, prefix);
      FormatIdParses(prefix, n);
      var found := Candidates(docs, key, prefix);
      assert found == Candidates(init, key, prefix) + [FormatId(prefix, n)];
      assert found[..|found| - 1] == Candidates(init, key, prefix);
    }
  }

  /** After N identifiers handed out by the corrected generator the next one
      is number N + 1: the identifiers run `<prefix>001`, `<prefix>002`, ...
      without gaps or repeats. */
  lemma SequentialIds(docs: seq<Document>, key: string, prefix: string)
    requires forall i :: 0 <= i < |docs| ==> key in docs[i] && docs[i][key] == Str(FormatId(prefix, i + 1))
    ensures NextFreshId(docs, key, prefix) == FormatId(prefix, |docs| + 1)
  {
    SequentialMax(docs, key, prefix);
  }
}
