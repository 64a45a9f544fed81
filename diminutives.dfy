/** The table-building step behind diminutive resolution: every base
    diminutive of the Russian diminutive dictionary (a key that maps to a
    different full name) gets its oblique-case forms added as further keys
    mapping to the same full name (fix_diminutives.py). Loading and saving the
    JSON file and the progress messages are outside the model. */
module Diminutives {
  import opened Seqs

  /** Python's `s.endswith(suffix)`. */
  predicate HasSuffix(s: string, suffix: string)
  {
    |suffix| <= |s| && s[|s| - |suffix|..] == suffix
  }

  /** The case forms of a diminutive, chosen by its final letter
      (`generate_case_forms`): the word itself, then genitive, dative,
      accusative, instrumental and prepositional endings. A word ending in
      `а`, `я` or `ь` loses that letter first; any other word keeps all its
      letters. The `ь` branch has no separate dative form. */
  function CaseForms(name: string): (forms: set<string>)
    ensures name in forms
  {
    if HasSuffix(name, "а") then
      var base := name[..|name| - 1];
      {name} + {base + "и", base + "е", base + "у", base + "ой", base + "е"}
    else if HasSuffix(name, "я") then
      var base := name[..|name| - 1];
      {name} + {base + "и", base + "е", base + "ю", base + "ей", base + "е"}
    else if HasSuffix(name, "ь") then
      var base := name[..|name| - 1];
      {name} + {base + "и", base + "ю", base + "ем", base + "е"}
    else
      {name} + {name + "а", name + "е", name + "у", name + "ой", name + "е"}
  }

  /** The four classes `CaseForms` distinguishes, by the nominative's last letter. */
  datatype Declension = HardA | SoftYa | SoftSign | Consonant

  function DeclensionOf(name: string): Declension
  {
    if HasSuffix(name, "а") then HardA
    else if HasSuffix(name, "я") then SoftYa
    else if HasSuffix(name, "ь") then SoftSign
    else Consonant
  }

  /** Replaces the first of `endings` that `form` ends with by `nominative`;
      a form with none of them is returned unchanged. */
  function RestoreEnding(form: string, endings: seq<string>, nominative: string): string
  {
    if endings == [] then form
    else if HasSuffix(form, endings[0]) then form[..|form| - |endings[0]|] + nominative
    else RestoreEnding(form, endings[1..], nominative)
  }

  /** The nominative a case form of class `d` comes from: the inverse of
      `CaseForms`, with the oblique endings of each class tried longest first. */
  function Nominative(form: string, d: Declension): string
  {
    match d
    case HardA => RestoreEnding(form, ["ой", "и", "е", "у"], "а")
    case SoftYa => RestoreEnding(form, ["ей", "и", "е", "ю"], "я")
    case SoftSign => RestoreEnding(form, ["ем", "и", "ю", "е"], "ь")
    case Consonant => RestoreEnding(form, ["ой", "а", "е", "у"], "")
  }

  /** `endswith` agrees with its definition by concatenation: `s` ends
      with `suffix` exactly when `s` is some stem followed by `suffix`. */
  lemma HasSuffixIff(s: string, suffix: string)
    ensures HasSuffix(s, suffix) <==> exists stem :: s == stem + suffix
  {
    if HasSuffix(s, suffix) {
      assert s == s[..|s| - |suffix|] + suffix;
    }
    if exists stem :: s == stem + suffix {
      var stem :| s == stem + suffix;
      assert s[|s| - |suffix|..] == suffix;
    }
  }

  /** The last letter of a non-empty string. */
  function Last(s: string): char
    requires |s| > 0
  {
    s[|s| - 1]
  }

  lemma AppendedLast(stem: string, e: string)
    requires |e| > 0
    ensures Last(stem + e) == Last(e)
  {
  }

  lemma SuffixLast(s: string, suffix: string)
    requires |suffix| > 0
    ensures HasSuffix(s, suffix) ==> Last(s) == Last(suffix)
  {
  }

  /** Appending `endings[k]` and restoring undoes itself when no earlier
      ending ends in the same letter as `endings[k]`. */
  lemma {:induction false} RestoreAppended(stem: string, endings: seq<string>, k: nat, nominative: string)
    requires k < |endings|
    requires forall j :: 0 <= j < |endings| ==> |endings[j]| > 0
    requires forall j :: 0 <= j < k ==> Last(endings[j]) != Last(endings[k])
    ensures RestoreEnding(stem + endings[k], endings, nominative) == stem + nominative
  {
    var f := stem + endings[k];
    AppendedLast(stem, endings[k]);
    if k == 0 {
      assert f[|f| - |endings[0]|..] == endings[0];
      assert f[..|f| - |endings[0]|] == stem;
    } else {
      SuffixLast(f, endings[0]);
      RestoreAppended(stem, endings[1..], k - 1, nominative);
    }
  }

  /** `RestoreAppended` for a class of four endings with four different last letters. */
  lemma RestoreClass(stem: string, endings: seq<string>, nominative: string, f: string)
    requires |endings| == 4 && forall j :: 0 <= j < 4 ==> |endings[j]| > 0
    requires forall i, j :: 0 <= i < j < 4 ==> Last(endings[i]) != Last(endings[j])
    requires f == stem + endings[0] || f == stem + endings[1] || f == stem + endings[2] || f == stem + endings[3]
    ensures RestoreEnding(f, endings, nominative) == stem + nominative
  {
    if f == stem + endings[0] {
      RestoreAppended(stem, endings, 0, nominative);
    } else if f == stem + endings[1] {
      RestoreAppended(stem, endings, 1, nominative);
    } else if f == stem + endings[2] {
      RestoreAppended(stem, endings, 2, nominative);
    } else {
      RestoreAppended(stem, endings, 3, nominative);
    }
  }

  /** Every case form other than the word itself leads back to the word. */
  lemma CaseFormsRoundTrip(name: string, f: string)
    requires f in CaseForms(name) && f != name
    ensures Nominative(f, DeclensionOf(name)) == name
  {
    if HasSuffix(name, "а") || HasSuffix(name, "я") || HasSuffix(name, "ь") {
      var base := name[..|name| - 1];
      assert name == base + name[|name| - 1..];
      if HasSuffix(name, "а") {
        RestoreClass(base, ["ой", "и", "е", "у"], "а", f);
      } else if HasSuffix(name, "я") {
        RestoreClass(base, ["ей", "и", "е", "ю"], "я", f);
      } else {
        RestoreClass(base, ["ем", "и", "ю", "е"], "ь", f);
      }
    } else {
      RestoreClass(name, ["ой", "а", "е", "у"], "", f);
      assert name + "" == name;
    }
  }

  lemma FiveDistinct(a: string, b: string, c: string, d: string, e: string)
    requires a != b && a != c && a != d && a != e
    requires b != c && b != d && b != e && c != d && c != e && d != e
    ensures |{a, b, c, d, e}| == 5
  {
  }

  /** Four forms of `stem` that end in four different letters, and a fifth
      word that none of them equals, make five strings. */
  lemma StemFormsCount(name: string, stem: string, e0: string, e1: string, e2: string, e3: string)
    requires |e0| > 0 && |e1| > 0 && |e2| > 0 && |e3| > 0
    requires Last(e0) != Last(e1) && Last(e0) != Last(e2) && Last(e0) != Last(e3)
    requires Last(e1) != Last(e2) && Last(e1) != Last(e3) && Last(e2) != Last(e3)
    requires name != stem + e0 && name != stem + e1 && name != stem + e2 && name != stem + e3
    ensures |{name, stem + e0, stem + e1, stem + e2, stem + e3}| == 5
  {
    AppendedLast(stem, e0);
    AppendedLast(stem, e1);
    AppendedLast(stem, e2);
    AppendedLast(stem, e3);
    FiveDistinct(name, stem + e0, stem + e1, stem + e2, stem + e3);
  }

  /** `CaseForms` always yields exactly five strings: the word and four
      distinct oblique forms (the prepositional form listed twice coincides
      with the dative). */
  lemma CaseFormsCount(name: string)
    ensures |CaseForms(name)| == 5
  {
    if HasSuffix(name, "а") || HasSuffix(name, "я") || HasSuffix(name, "ь") {
      var base := name[..|name| - 1];
      assert name == base + name[|name| - 1..];
      AppendedLast(base, name[|name| - 1..]);
      if HasSuffix(name, "а") {
        assert CaseForms(name) == {name, base + "и", base + "е", base + "у", base + "ой"};
        StemFormsCount(name, base, "и", "е", "у", "ой");
      } else if HasSuffix(name, "я") {
        assert CaseForms(name) == {name, base + "и", base + "е", base + "ю", base + "ей"};
        StemFormsCount(name, base, "и", "е", "ю", "ей");
      } else {
        assert CaseForms(name) == {name, base + "и", base + "ю", base + "ем", base + "е"};
        StemFormsCount(name, base, "и", "ю", "ем", "е");
      }
    } else {
      assert CaseForms(name) == {name, name + "а", name + "е", name + "у", name + "ой"};
      StemFormsCount(name, name, "а", "е", "у", "ой");
    }
  }

  /** An insertion-ordered dictionary, as a Python `dict`: its keys in the
      order they were inserted, and the key-to-value mapping. */
  datatype OrderedDict = OrderedDict(order: seq<string>, entries: map<string, string>)
  {
    ghost predicate Valid()
    {
      && (forall i, j :: 0 <= i < j < |order| ==> order[i] != order[j])
      && (forall k :: k in entries <==> k in order)
    }
  }

  /** `d.items()`: the (key, value) pairs in insertion order. */
  function Items(d: OrderedDict): (r: seq<(string, string)>)
    requires d.Valid()
    ensures |r| == |d.order| && forall i :: 0 <= i < |r| ==> r[i].0 == d.order[i]
  {
    seq(|d.order|, i requires 0 <= i < |d.order| => (d.order[i], d.entries[d.order[i]]))
  }

  /** The items are exactly the dictionary's (key, value) pairs. */
  lemma ItemsExact(d: OrderedDict, k: string, v: string)
    requires d.Valid()
    ensures (k, v) in Items(d) <==> k in d.entries && d.entries[k] == v
  {
  }

  /** A real diminutive maps to a full name other than itself. */
  predicate IsBase(item: (string, string))
  {
    item.0 != item.1
  }

  /** `base_diminutives`: the entries whose key differs from the value, in
      dictionary order. */
  function BaseDiminutives(d: OrderedDict): seq<(string, string)>
    requires d.Valid()
  {
    Filter(Items(d), IsBase)
  }

  /** The pairs of `BaseDiminutives` are exactly the entries whose key differs
      from its value. */
  lemma BaseDiminutivesExact(d: OrderedDict, item: (string, string))
    requires d.Valid()
    ensures item in BaseDiminutives(d) <==>
      item.0 in d.entries && d.entries[item.0] == item.1 && item.0 != item.1
  {
  }

  /** A base diminutive `b` claims `form` when `form` is one of its case
      forms other than itself. */
  predicate Claims(b: (string, string), form: string)
  {
    form in CaseForms(b.0) && form != b.0
  }

  /** `m` after inserting, for each of `forms` other than `dim` that is not
      yet a key, that form mapped to `full`. */
  function AddForms(m: map<string, string>, dim: string, forms: set<string>, full: string): map<string, string>
  {
    m + map f | f in forms && f != dim && f !in m :: full
  }

  /** `AddForms` keeps every entry of `m`, adds exactly the forms other than
      `dim` that `m` lacks, and maps each of them to `full`. */
  lemma AddFormsExact(m: map<string, string>, dim: string, forms: set<string>, full: string)
    ensures var r := AddForms(m, dim, forms, full);
      && (forall k :: k in r <==> k in m || (k in forms && k != dim))
      && (forall k :: k in m ==> r[k] == m[k])
      && (forall k :: k in r && k !in m ==> r[k] == full)
  {
  }

  /** `m` after the inner loop for one base diminutive. */
  function MergeOne(m: map<string, string>, dim: string, full: string): map<string, string>
  {
    AddForms(m, dim, CaseForms(dim), full)
  }

  /** `m` after the outer loop over `bases`, taken in order. The merge never
      changes or removes a key that was already present. */
  function MergeAll(m: map<string, string>, bases: seq<(string, string)>): (r: map<string, string>)
    ensures forall k :: k in m ==> k in r && r[k] == m[k]
  {
    if bases == [] then m
    else
      var last := bases[|bases| - 1];
      MergeOne(MergeAll(m, bases[..|bases| - 1]), last.0, last.1)
  }

  /** After the merge every case form claimed by a base diminutive is a key. */
  lemma {:induction false} MergeCoversForms(m: map<string, string>, bases: seq<(string, string)>)
    ensures forall i, f :: 0 <= i < |bases| && Claims(bases[i], f) ==> f in MergeAll(m, bases)
  {
    if bases != [] {
      var init, last := bases[..|bases| - 1], bases[|bases| - 1];
      MergeCoversForms(m, init);
      forall i, f | 0 <= i < |bases| && Claims(bases[i], f) ensures f in MergeAll(m, bases) {
        if i < |init| {
          assert init[i] == bases[i];
        }
      }
    }
  }

  /** Every key the merge adds maps to the full name of a base diminutive that
      claims it, namely the first one in dictionary order that does. */
  lemma {:induction false} MergeAddsFirstClaim(m: map<string, string>, bases: seq<(string, string)>, k: string)
    requires k in MergeAll(m, bases) && k !in m
    ensures exists i :: 0 <= i < |bases| && Claims(bases[i], k) && MergeAll(m, bases)[k] == bases[i].1 &&
                        (forall j :: 0 <= j < i ==> !Claims(bases[j], k))
  {
    var init, last := bases[..|bases| - 1], bases[|bases| - 1];
    var prior := MergeAll(m, init);
    if k in prior {
      MergeAddsFirstClaim(m, init, k);
      var i :| 0 <= i < |init| && Claims(init[i], k) && prior[k] == init[i].1
        && forall j :: 0 <= j < i ==> !Claims(init[j], k);
      assert bases[i] == init[i];
      assert forall j :: 0 <= j < i ==> bases[j] == init[j];
    } else {
      MergeCoversForms(m, init);
      assert k in CaseForms(last.0) && k != last.0;
      forall j | 0 <= j < |init| ensures !Claims(bases[j], k) {
        assert bases[j] == init[j];
      }
    }
  }

  /** `d[k] = v` for a key `k` that `d` does not have yet: the key goes last
      in the order. */
  function Insert(d: OrderedDict, k: string, v: string): (r: OrderedDict)
    requires d.Valid() && k !in d.entries
    ensures r.Valid()
    ensures r.entries == d.entries[k := v] && |r.entries| == |d.entries| + 1
    ensures |r.order| == |d.order| + 1 && r.order[..|d.order|] == d.order
  {
    var r := OrderedDict(d.order + [k], d.entries[k := v]);
    assert r.order[..|d.order|] == d.order;
    r
  }

  lemma PrefixOfPrefix(a: seq<string>, b: seq<string>, c: seq<string>)
    requires |a| <= |b| <= |c| && b[..|a|] == a && c[..|b|] == b
    ensures c[..|a|] == a
  {
  }

  /** A map that keeps every entry of `m`, adds exactly the forms other than
      `dim` that `m` lacks, and maps those to `full`, is `AddForms(m, dim, forms, full)`. */
  lemma AddFormsPointwise(m: map<string, string>, dim: string, forms: set<string>, full: string, r: map<string, string>)
    requires forall k :: k in r <==> k in m || (k in forms && k != dim)
    requires forall k :: k in m ==> r[k] == m[k]
    requires forall k :: k in r && k !in m ==> r[k] == full
    ensures r == AddForms(m, dim, forms, full)
  {
  }

  /** The state of the inner loop once the forms outside `todo` have been
      handled: `r` is `d` with exactly those forms other than `dim` that `d`
      lacked appended in order and mapped to `full`, and `added` counts them. */
  ghost predicate InsertedSoFar(d: OrderedDict, dim: string, forms: set<string>, full: string,
                                todo: set<string>, r: OrderedDict, added: nat)
  {
    && todo <= forms
    && r.Valid()
    && (forall k :: k in r.entries <==> k in d.entries || (k in forms && k !in todo && k != dim))
    && (forall k :: k in d.entries ==> r.entries[k] == d.entries[k])
    && (forall k :: k in r.entries && k !in d.entries ==> r.entries[k] == full)
    && |d.order| <= |r.order| && r.order[..|d.order|] == d.order
    && |r.entries| == |d.entries| + added
  }

  /** An iteration of the inner loop that inserts `f` keeps `InsertedSoFar`. */
  lemma InsertNewForm(d: OrderedDict, dim: string, forms: set<string>, full: string,
                      todo: set<string>, r: OrderedDict, added: nat, f: string)
    requires InsertedSoFar(d, dim, forms, full, todo, r, added) && f in todo
    requires f != dim && f !in r.entries
    ensures r.Valid() && InsertedSoFar(d, dim, forms, full, todo - {f}, Insert(r, f, full), added + 1)
  {
    var next := Insert(r, f, full);
    PrefixOfPrefix(d.order, r.order, next.order);
    assert f !in d.entries;
    forall k ensures k in next.entries <==> k in d.entries || (k in forms && k !in todo - {f} && k != dim) {
      assert k in next.entries <==> k in r.entries || k == f;
    }
    forall k | k in next.entries && k !in d.entries ensures next.entries[k] == full {
      if k != f {
        assert k in r.entries;
      }
    }
  }

  /** An iteration of the inner loop that skips `f` keeps `InsertedSoFar`. */
  lemma SkipForm(d: OrderedDict, dim: string, forms: set<string>, full: string,
                 todo: set<string>, r: OrderedDict, added: nat, f: string)
    requires InsertedSoFar(d, dim, forms, full, todo, r, added) && f in todo
    requires f == dim || f in r.entries
    ensures InsertedSoFar(d, dim, forms, full, todo - {f}, r, added)
  {
  }

  /** The inner loop of `add_case_forms_to_diminutives` over the set
      `forms` that `generate_case_forms(dim)` produced: inserts every form
      other than `dim` that is not yet a key, mapped to `full`, and counts
      the insertions. */
  method InsertCaseForms(d: OrderedDict, dim: string, forms: set<string>, full: string) returns (r: OrderedDict, added: nat)
    requires d.Valid()
    ensures r.Valid()
    ensures r.entries == AddForms(d.entries, dim, forms, full)
    ensures |d.order| <= |r.order| && r.order[..|d.order|] == d.order
    ensures |r.entries| == |d.entries| + added
  {
    var todo := forms;
    r, added := d, 0;
    while todo != {}
      invariant InsertedSoFar(d, dim, forms, full, todo, r, added)
      decreases |todo|
    {
      var f :| f in todo;
      if f != dim && f !in r.entries {
        InsertNewForm(d, dim, forms, full, todo, r, added, f);
        r, added := Insert(r, f, full), added + 1;
      } else {
        SkipForm(d, dim, forms, full, todo, r, added, f);
      }
      todo := todo - {f};
    }
    AddFormsPointwise(d.entries, dim, forms, full, r.entries);
  }

  /** The first loop of `add_case_forms_to_diminutives`: the entries whose
      key differs from the value, in dictionary order. */
  method CollectBaseDiminutives(d: OrderedDict) returns (bases: seq<(string, string)>)
    requires d.Valid()
    ensures bases == BaseDiminutives(d)
  {
    var items := Items(d);
    bases := [];
    for i := 0 to |d.order|
      invariant bases == Filter(items[..i], IsBase)
    {
      var dim := d.order[i];
      var full := d.entries[dim];
      assert items[..i + 1] == items[..i] + [(dim, full)];
      if dim != full {
        bases := bases + [(dim, full)];
      }
    }
    assert items[..|d.order|] == items;
  }

  lemma MergeAllSnoc(m: map<string, string>, bases: seq<(string, string)>, i: nat)
    requires i < |bases|
    ensures MergeAll(m, bases[..i + 1]) == MergeOne(MergeAll(m, bases[..i]), bases[i].0, bases[i].1)
  {
    assert bases[..i + 1][..i] == bases[..i];
  }

  /** The outer loop of `add_case_forms_to_diminutives`: the case forms of
      each base diminutive in turn, in the order of `bases`. */
  method MergeCaseForms(d: OrderedDict, bases: seq<(string, string)>) returns (r: OrderedDict, added: nat)
    requires d.Valid()
    ensures r.Valid()
    ensures r.entries == MergeAll(d.entries, bases)
    ensures |d.order| <= |r.order| && r.order[..|d.order|] == d.order
    ensures |r.entries| == |d.entries| + added
  {
    r, added := d, 0;
    for i := 0 to |bases|
      invariant r.Valid()
      invariant r.entries == MergeAll(d.entries, bases[..i])
      invariant |d.order| <= |r.order| && r.order[..|d.order|] == d.order
      invariant |r.entries| == |d.entries| + added
    {
      var next, n := InsertCaseForms(r, bases[i].0, CaseForms(bases[i].0), bases[i].1);
      MergeAllSnoc(d.entries, bases, i);
      PrefixOfPrefix(d.order, r.order, next.order);
      r, added := next, added + n;
    }
    assert bases[..|bases|] == bases;
  }

  /** `add_case_forms_to_diminutives` without the file I/O: collects the base
      diminutives in dictionary order, then inserts their case forms. The
      result is the merge of the old entries with the base diminutives'
      case forms; new keys come after the old ones in the order, and `added`
      is how many keys the dictionary gained. */
  method AddCaseForms(d: OrderedDict) returns (r: OrderedDict, added: nat)
    requires d.Valid()
    ensures r.Valid()
    ensures r.entries == MergeAll(d.entries, BaseDiminutives(d))
    ensures |d.order| <= |r.order| && r.order[..|d.order|] == d.order
    ensures |r.entries| == |d.entries| + added
  {
    var bases := CollectBaseDiminutives(d);
    r, added := MergeCaseForms(d, bases);
  }

  /** The script's own check after the merge: a dictionary with only
      "даша" -> "дарья" gains "даши", "дашу", "даше" and "дашой". */
  lemma DashaForms()
    ensures var r := MergeAll(map["даша" := "дарья"], [("даша", "дарья")]);
      forall k :: k in ["даши", "дашу", "даше", "дашой"] ==> k in r && r[k] == "дарья"
  {
    var forms := CaseForms("даша");
    assert HasSuffix("даша", "а");
    assert "даша"[..3] == "даш";
    assert "даш" + "и" == "даши" && "даш" + "е" == "даше";
    assert "даш" + "у" == "дашу" && "даш" + "ой" == "дашой";
    assert forms == {"даша", "даши", "даше", "дашу", "дашой"};
  }
}
