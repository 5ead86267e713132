/**
  internal/agent/subset.go: whether a reported configuration contains a pushed one. Documents are
  parsed trees; fold maps a character to the representative of its case-folding class.
 */
module ConfigSubset {
  import opened Wrappers

  /** A scalar carries the form fmt.Sprint gives it, and whether it is a string. */
  datatype Tree = Scalar(isString: bool, text: string) | Mapping(entries: map<string, Tree>) | Listing(items: seq<Tree>)

  /** redactedValue in the source. */
  const REDACTED: string := "[REDACTED]"

  /** strings.EqualFold. */
  predicate EqualFold(s: string, t: string, fold: char -> char) {
    |s| == |t| && forall i :: 0 <= i < |s| ==> fold(s[i]) == fold(t[i])
  }

  /** scalarEqual; a mapping or list never equals a scalar. */
  predicate ScalarEqual(p: Tree, e: Tree, fold: char -> char)
    requires p.Scalar?
  {
    e.Scalar? && (
      || (p.isString && e.isString && (e.text == REDACTED || p.text == REDACTED))
      || p.text == e.text
      || (p.isString && e.isString && EqualFold(p.text, e.text, fold)))
  }

  /** Every key present and contained, every list element contained in some element, scalars equal. */
  predicate Contained(p: Tree, e: Tree, fold: char -> char)
    decreases p, 0
  {
    match p
    case Scalar(_, _) => ScalarEqual(p, e, fold)
    case Mapping(entries) =>
      e.Mapping? && forall k :: k in entries ==> k in e.entries && Contained(entries[k], e.entries[k], fold)
    case Listing(items) =>
      e.Listing? && forall i :: 0 <= i < |items| ==> InSome(items[i], e.items, fold)
  }

  predicate InSome(p: Tree, items: seq<Tree>, fold: char -> char)
    decreases p, 1
  {
    exists j :: 0 <= j < |items| && Contained(p, items[j], fold)
  }

  /** yamlSubset: maps key by key, lists in order first and then in any order. */
  method YamlSubset(p: Tree, e: Tree, fold: char -> char) returns (r: bool)
    ensures r == Contained(p, e, fold)
    decreases p
  {
    match p {
      case Mapping(entries) =>
        if !e.Mapping? {
          return false;
        }
        var todo := entries.Keys;
        while todo != {}
          invariant todo <= entries.Keys
          invariant forall k :: k in entries && k !in todo ==>
                      k in e.entries && Contained(entries[k], e.entries[k], fold)
          decreases todo
        {
          var k :| k in todo;
          if k !in e.entries {
            return false;
          }
          var sub := YamlSubset(entries[k], e.entries[k], fold);
          if !sub {
            return false;
          }
          todo := todo - {k};
        }
        return true;
      case Listing(items) =>
        if !e.Listing? {
          return false;
        }
        if |items| == 0 {
          return true;
        }
        if |e.items| == |items| {
          var all := InOrder(p, e, fold);
          if all {
            return true;
          }
        }
        for i := 0 to |items|
          invariant forall x :: 0 <= x < i ==> InSome(items[x], e.items, fold)
        {
          var found := false;
          var j := 0;
          while j < |e.items| && !found
            invariant 0 <= j <= |e.items|
            invariant found ==> InSome(items[i], e.items, fold)
            invariant !found ==> forall x :: 0 <= x < j ==> !Contained(items[i], e.items[x], fold)
            decreases |e.items| - j, !found
          {
            found := YamlSubset(items[i], e.items[j], fold);
            j := j + 1;
          }
          if !found {
            return false;
          }
        }
        return true;
      case Scalar(_, _) =>
        return ScalarEqual(p, e, fold);
    }
  }

  /** The first attempt at two lists of the same length: element by element. */
  method InOrder(p: Tree, e: Tree, fold: char -> char) returns (all: bool)
    requires p.Listing? && e.Listing? && |p.items| == |e.items|
    ensures all ==> forall i :: 0 <= i < |p.items| ==> InSome(p.items[i], e.items, fold)
    decreases p, 0
  {
    for i := 0 to |p.items|
      invariant forall x :: 0 <= x < i ==> InSome(p.items[x], e.items, fold)
    {
      var sub := YamlSubset(p.items[i], e.items[i], fold);
      if !sub {
        return false;
      }
    }
    return true;
  }

  /** configSubset; parse stands for yaml.Unmarshal and a parse error means no. */
  method SubsetOf(pushed: string, effective: string, parse: string -> Option<Tree>, fold: char -> char)
    returns (r: bool)
    ensures r <==> Covers(pushed, effective, parse, fold)
    ensures r <==> parse(pushed).Some? && parse(effective).Some?
                   && Contained(parse(pushed).value, parse(effective).value, fold)
  {
    var p, e := parse(pushed), parse(effective);
    if p.None? || e.None? {
      return false;
    }
    r := YamlSubset(p.value, e.value, fold);
  }

  predicate Covers(pushed: string, effective: string, parse: string -> Option<Tree>, fold: char -> char) {
    parse(pushed).Some? && parse(effective).Some? && Contained(parse(pushed).value, parse(effective).value, fold)
  }

  // ---- laws of containment ----

  /** Every document contains itself. */
  lemma {:induction false} Reflexive(p: Tree, fold: char -> char)
    ensures Contained(p, p, fold)
  {
    match p
    case Scalar(_, _) =>
    case Mapping(entries) =>
      forall k | k in entries ensures Contained(entries[k], entries[k], fold) {
        Reflexive(entries[k], fold);
      }
    case Listing(items) =>
      forall i | 0 <= i < |items| ensures InSome(items[i], items, fold) {
        Reflexive(items[i], fold);
      }
  }

  /** f has everything e has and may have more keys and list elements at any depth, in any list order. */
  predicate Grows(e: Tree, f: Tree)
    decreases e, 0
  {
    match e
    case Scalar(_, _) => f == e
    case Mapping(entries) =>
      f.Mapping? && forall k :: k in entries ==> k in f.entries && Grows(entries[k], f.entries[k])
    case Listing(items) => f.Listing? && forall i :: 0 <= i < |items| ==> GrowsIntoSome(items[i], f.items)
  }

  predicate GrowsIntoSome(e: Tree, items: seq<Tree>)
    decreases e, 1
  {
    exists j :: 0 <= j < |items| && Grows(e, items[j])
  }

  /** Containment survives any growth of the reported document. */
  lemma {:induction false} GrowthKeepsContainment(p: Tree, e: Tree, f: Tree, fold: char -> char)
    requires Contained(p, e, fold) && Grows(e, f)
    ensures Contained(p, f, fold)
    decreases p
  {
    match p
    case Scalar(_, _) =>
    case Mapping(entries) =>
      forall k | k in entries ensures k in f.entries && Contained(entries[k], f.entries[k], fold) {
        GrowthKeepsContainment(entries[k], e.entries[k], f.entries[k], fold);
      }
    case Listing(items) =>
      forall i | 0 <= i < |items| ensures InSome(items[i], f.items, fold) {
        assert InSome(items[i], e.items, fold);
        var j :| 0 <= j < |e.items| && Contained(items[i], e.items[j], fold);
        assert GrowsIntoSome(e.items[j], f.items);
        var x :| 0 <= x < |f.items| && Grows(e.items[j], f.items[x]);
        GrowthKeepsContainment(items[i], e.items[j], f.items[x], fold);
      }
  }

  /** Every scalar of the document is a string, and if plain none is the redaction placeholder. */
  predicate Strings(t: Tree, plain: bool) {
    match t
    case Scalar(isString, text) => isString && (plain ==> text != REDACTED)
    case Mapping(entries) => forall k :: k in entries ==> Strings(entries[k], plain)
    case Listing(items) => forall i :: 0 <= i < |items| ==> Strings(items[i], plain)
  }

  /** Containment is transitive through a document of unredacted strings. */
  lemma {:induction false} Transitive(p: Tree, e: Tree, f: Tree, fold: char -> char)
    requires Strings(p, false) && Strings(e, true) && Strings(f, false)
    requires Contained(p, e, fold) && Contained(e, f, fold)
    ensures Contained(p, f, fold)
    decreases p
  {
    match p
    case Scalar(_, _) =>
    case Mapping(entries) =>
      forall k | k in entries ensures k in f.entries && Contained(entries[k], f.entries[k], fold) {
        Transitive(entries[k], e.entries[k], f.entries[k], fold);
      }
    case Listing(items) =>
      forall i | 0 <= i < |items| ensures InSome(items[i], f.items, fold) {
        assert InSome(items[i], e.items, fold);
        var j :| 0 <= j < |e.items| && Contained(items[i], e.items[j], fold);
        assert InSome(e.items[j], f.items, fold);
        var x :| 0 <= x < |f.items| && Contained(e.items[j], f.items[x], fold);
        Transitive(items[i], e.items[j], f.items[x], fold);
      }
  }

  // ---- exactly when containment is transitive ----

  /** Every placeholder replaced by the empty string. */
  function Filled(t: Tree): Tree {
    match t
    case Scalar(isString, text) => if text == REDACTED then Scalar(isString, "") else t
    case Mapping(entries) => Mapping(map k | k in entries :: Filled(entries[k]))
    case Listing(items) => Listing(seq(|items|, i requires 0 <= i < |items| => Filled(items[i])))
  }

  /** A redacted document is contained in the same document with its placeholders replaced. */
  lemma {:induction false} FilledContains(t: Tree, fold: char -> char)
    requires Strings(t, false)
    ensures Contained(t, Filled(t), fold) && Strings(Filled(t), true)
  {
    match t
    case Scalar(_, _) =>
    case Mapping(entries) =>
      forall k | k in entries
        ensures Contained(entries[k], Filled(entries[k]), fold) && Strings(Filled(entries[k]), true)
      {
        FilledContains(entries[k], fold);
      }
    case Listing(items) =>
      var filled := Filled(t);
      forall i | 0 <= i < |items| ensures InSome(items[i], filled.items, fold) && Strings(filled.items[i], true) {
        FilledContains(items[i], fold);
        assert filled.items[i] == Filled(items[i]);
      }
  }

  /** Every scalar is shorter than n and not the placeholder. */
  predicate Short(t: Tree, n: nat) {
    match t
    case Scalar(_, text) => |text| < n && text != REDACTED
    case Mapping(entries) => forall k :: k in entries ==> Short(entries[k], n)
    case Listing(items) => forall i :: 0 <= i < |items| ==> Short(items[i], n)
  }

  lemma {:induction false} ShortMonotone(t: Tree, n: nat, m: nat)
    requires Short(t, n) && n <= m
    ensures Short(t, m)
  {
    match t
    case Scalar(_, _) =>
    case Mapping(entries) =>
      forall k | k in entries ensures Short(entries[k], m) {
        ShortMonotone(entries[k], n, m);
      }
    case Listing(items) =>
      forall i | 0 <= i < |items| ensures Short(items[i], m) {
        ShortMonotone(items[i], n, m);
      }
  }

  lemma {:induction false} SomeBound(t: Tree) returns (n: nat)
    requires Strings(t, true)
    ensures Short(t, n)
  {
    match t
    case Scalar(_, text) => n := |text| + 1;
    case Mapping(entries) => n := KeysBound(entries, entries.Keys, t);
    case Listing(items) => n := ItemsBound(items, |items|, t);
  }

  lemma {:induction false} KeysBound(entries: map<string, Tree>, keys: set<string>, t: Tree) returns (n: nat)
    requires keys <= entries.Keys && t == Mapping(entries) && Strings(t, true)
    ensures forall k :: k in keys ==> Short(entries[k], n)
    decreases t, |keys|
  {
    n := 0;
    if keys != {} {
      var k :| k in keys;
      var x := KeysBound(entries, keys - {k}, t);
      var y := SomeBound(entries[k]);
      n := x + y;
      forall u | u in keys ensures Short(entries[u], n) {
        if u == k {
          ShortMonotone(entries[u], y, n);
        } else {
          ShortMonotone(entries[u], x, n);
        }
      }
    }
  }

  lemma {:induction false} ItemsBound(items: seq<Tree>, count: nat, t: Tree) returns (n: nat)
    requires count <= |items| && t == Listing(items) && Strings(t, true)
    ensures forall i :: 0 <= i < count ==> Short(items[i], n)
    decreases t, count
  {
    n := 0;
    if count > 0 {
      var x := ItemsBound(items, count - 1, t);
      var y := SomeBound(items[count - 1]);
      n := x + y;
      forall i | 0 <= i < count ensures Short(items[i], n) {
        ShortMonotone(items[i], if i == count - 1 then y else x, n);
      }
    }
  }

  /** The document has a string of at least n characters that is not the placeholder. */
  predicate HasLong(t: Tree, n: nat) {
    match t
    case Scalar(isString, text) => isString && |text| >= n && text != REDACTED
    case Mapping(entries) => exists k :: k in entries && HasLong(entries[k], n)
    case Listing(items) => exists i :: 0 <= i < |items| && HasLong(items[i], n)
  }

  lemma {:induction false} LongNotInShort(p: Tree, g: Tree, n: nat, fold: char -> char)
    requires HasLong(p, n) && Short(g, n)
    ensures !Contained(p, g, fold)
  {
    if Contained(p, g, fold) {
      match p
      case Scalar(_, _) =>
      case Mapping(entries) =>
        var k :| k in entries && HasLong(entries[k], n);
        LongNotInShort(entries[k], g.entries[k], n, fold);
      case Listing(items) =>
        var i :| 0 <= i < |items| && HasLong(items[i], n);
        assert InSome(items[i], g.items, fold);
        var j :| 0 <= j < |g.items| && Contained(items[i], g.items[j], fold);
        LongNotInShort(items[i], g.items[j], n, fold);
    }
  }

  function Letters(n: nat): (s: string)
    ensures |s| == n && s != REDACTED
  {
    var s := seq(n, _ => 'a');
    assert |s| == |REDACTED| ==> s[0] != REDACTED[0];
    s
  }

  /** Along a path to a placeholder anything can be pushed: here a string of n letters. */
  lemma {:induction false} PathToPlaceholder(e: Tree, n: nat, fold: char -> char) returns (p: Tree)
    requires Strings(e, false) && !Strings(e, true)
    ensures Strings(p, false) && HasLong(p, n) && Contained(p, e, fold)
  {
    match e
    case Scalar(_, _) => p := Scalar(true, Letters(n));
    case Mapping(entries) =>
      var k :| k in entries && !Strings(entries[k], true);
      var q := PathToPlaceholder(entries[k], n, fold);
      p := Mapping(map[k := q]);
      assert k in p.entries && HasLong(p.entries[k], n);
    case Listing(items) =>
      var i :| 0 <= i < |items| && !Strings(items[i], true);
      var q := PathToPlaceholder(items[i], n, fold);
      p := Listing([q]);
      assert HasLong(p.items[0], n) && InSome(p.items[0], items, fold);
  }

  /** Containment between documents of strings passes through e. */
  ghost predicate TransitiveThrough(e: Tree, fold: char -> char) {
    forall p, f :: Strings(p, false) && Strings(f, false) && Contained(p, e, fold) && Contained(e, f, fold) ==>
                     Contained(p, f, fold)
  }

  /** On documents of strings containment is transitive through e exactly when e has no placeholder. */
  lemma {:induction false} TransitiveIff(e: Tree, fold: char -> char)
    requires Strings(e, false)
    ensures TransitiveThrough(e, fold) <==> Strings(e, true)
  {
    if Strings(e, true) {
      forall p, f | Strings(p, false) && Strings(f, false) && Contained(p, e, fold) && Contained(e, f, fold)
        ensures Contained(p, f, fold)
      {
        Transitive(p, e, f, fold);
      }
    } else {
      FilledContains(e, fold);
      StringsWeaken(Filled(e));
      var n := SomeBound(Filled(e));
      var p := PathToPlaceholder(e, n, fold);
      LongNotInShort(p, Filled(e), n, fold);
    }
  }

  lemma {:induction false} StringsWeaken(t: Tree)
    requires Strings(t, true)
    ensures Strings(t, false)
  {
    match t
    case Scalar(_, _) =>
    case Mapping(entries) =>
      forall k | k in entries ensures Strings(entries[k], false) {
        StringsWeaken(entries[k]);
      }
    case Listing(items) =>
      forall i | 0 <= i < |items| ensures Strings(items[i], false) {
        StringsWeaken(items[i]);
      }
  }

  /** Containment between any two documents passes through e. */
  ghost predicate AllThrough(e: Tree, fold: char -> char) {
    forall p, f :: Contained(p, e, fold) && Contained(e, f, fold) ==> Contained(p, f, fold)
  }

  lemma {:induction false} PassThrough(p: Tree, e: Tree, f: Tree, fold: char -> char)
    requires AllThrough(e, fold) && Contained(p, e, fold) && Contained(e, f, fold)
    ensures Contained(p, f, fold)
  {
  }

  /** Over all documents, containment passes through a single scalar exactly when that is not a string. */
  lemma ScalarTransitiveIff(e: Tree, fold: char -> char)
    requires e.Scalar?
    ensures AllThrough(e, fold) <==> !e.isString
  {
    if !e.isString {
      forall p, f | Contained(p, e, fold) && Contained(e, f, fold) ensures Contained(p, f, fold) {
        assert p.Scalar? && f.Scalar? && p.text == e.text == f.text;
      }
    } else {
      var redacted := e.text == REDACTED;
      var p := Scalar(true, if redacted then "" else REDACTED);
      var f := if redacted then Scalar(true, "a") else Scalar(false, e.text);
      assert Contained(p, e, fold) && Contained(e, f, fold) && !Contained(p, f, fold);
      if AllThrough(e, fold) {
        PassThrough(p, e, f, fold);
      }
    }
  }

  /** A reported placeholder stands in for a pushed scalar exactly when that is a string (or prints alike). */
  lemma {:induction false} RedactedMatchesIff(p: Tree, fold: char -> char)
    requires p.Scalar?
    ensures Contained(p, Scalar(true, REDACTED), fold) <==> p.isString || p.text == REDACTED
  {
  }

  /** Two strings match exactly up to case, or when one of them is the placeholder. */
  lemma StringsMatchIff(s: string, t: string, fold: char -> char)
    ensures Contained(Scalar(true, s), Scalar(true, t), fold) <==>
            || s == "[REDACTED]" || t == "[REDACTED]"
            || (|s| == |t| && forall i :: 0 <= i < |s| ==> fold(s[i]) == fold(t[i]))
  {
  }

  /** Any two other scalars match exactly when they print alike. */
  lemma {:induction false} OtherScalarsMatchIff(p: Tree, e: Tree, fold: char -> char)
    requires p.Scalar? && e.Scalar? && !(p.isString && e.isString)
    ensures Contained(p, e, fold) <==> p.text == e.text
  {
  }

  /** Removing a key from the pushed document goes unnoticed: what is left is still contained. */
  lemma {:induction false} DeletionsUnseen(entries: map<string, Tree>, e: Tree, k: string, fold: char -> char)
    requires Contained(Mapping(entries), e, fold)
    ensures Contained(Mapping(entries - {k}), e, fold)
  {
  }
}
