/**
 * The author entity and its localisation map: a primary name plus one translation per language.
 * Lookups fall back to the primary name, setName keeps the primary name in step with the
 * translation it mirrors, and the map converts to and from a list of (language, name) entries.
 */
module Authors {
  import opened Entities

  /** I18AuthorName: one translation of an author's name. */
  datatype I18AuthorName = I18AuthorName(lang: Lang, name: string)

  /** convertToMap's result: one key per language of the list, the later entry winning. */
  function ToMap(names: seq<I18AuthorName>): map<Lang, string> {
    if names == [] then map[]
    else
      var n := |names| - 1;
      ToMap(names[..n])[names[n].lang := names[n].name]
  }

  /** The keys of the map are exactly the languages of the list. */
  lemma {:induction false} ToMapKeys(names: seq<I18AuthorName>)
    ensures ToMap(names).Keys == set i | 0 <= i < |names| :: names[i].lang
  {
    if names != [] {
      var n := |names| - 1;
      ToMapKeys(names[..n]);
      assert (set i | 0 <= i < |names| :: names[i].lang) ==
             (set i | 0 <= i < n :: names[..n][i].lang) + {names[n].lang};
    }
  }

  /** The value of a language is the name of the last entry with that language. */
  lemma {:induction false} ToMapLastWins(names: seq<I18AuthorName>, i: nat)
    requires i < |names|
    requires forall j :: i < j < |names| ==> names[j].lang != names[i].lang
    ensures names[i].lang in ToMap(names) && ToMap(names)[names[i].lang] == names[i].name
  {
    var n := |names| - 1;
    if i < n {
      ToMapLastWins(names[..n], i);
    }
  }

  /** Java's String.hashCode works on UTF-16 code units: a character beyond U+FFFF is a surrogate pair. */
  function Utf16(s: string): seq<int> {
    if s == [] then []
    else
      var c := s[0] as int;
      (if c < 0x1_0000 then [c] else [0xD800 + (c - 0x1_0000) / 0x400, 0xDC00 + (c - 0x1_0000) % 0x400]) +
      Utf16(s[1..])
  }

  /** String.hashCode over code units: h = 31 * h + unit for every unit, in 32-bit int arithmetic. */
  function HashUnits(units: seq<int>): (h: int)
    ensures -0x8000_0000 <= h < 0x8000_0000
  {
    if units == [] then 0
    else
      var n := |units| - 1;
      WrapInt32(31 * HashUnits(units[..n]) + units[n])
  }

  /** String.hashCode: the hash of the string's UTF-16 code units, a Java int, 0 for "". */
  function StringHash(s: string): (h: int)
    ensures -0x8000_0000 <= h < 0x8000_0000
    ensures s == "" ==> h == 0
  {
    HashUnits(Utf16(s))
  }

  lemma StringHashExamples()
    ensures StringHash("") == 0
    ensures StringHash("a") == 97
    ensures StringHash("ab") == 3105
  {
    assert Utf16("a") == [97];
    assert Utf16("ab") == [97, 98];
    assert [97, 98][..1] == [97];
    assert [97][..0] == [];
  }

  class Author {
    const id: int
    var name: string
    var i18Names: map<Lang, string>

    /** Author.Builder.build */
    constructor (id: int, name: string, i18Names: map<Lang, string>)
      ensures this.id == id && this.name == name && this.i18Names == i18Names
    {
      this.id := id;
      this.name := name;
      this.i18Names := i18Names;
    }

    /** getName(lang, fallback): the translation, else the primary name when falling back, else "". */
    function GetName(lang: Lang, fallback: bool): (s: string)
      reads this
      ensures lang in i18Names ==> s == i18Names[lang]
      ensures lang !in i18Names && fallback ==> s == name
      ensures lang !in i18Names && !fallback ==> s == ""
    {
      if lang !in i18Names && fallback then name
      else if lang in i18Names then i18Names[lang] else ""
    }

    /** getName(lang): the lookup that falls back to the primary name. */
    function GetNameDefault(lang: Lang): (s: string)
      reads this
      ensures s == GetName(lang, true)
      ensures s == if lang in i18Names then i18Names[lang] else name
    {
      GetName(lang, true)
    }

    /**
     * setName(lang, s): the translation for lang becomes s; when an existing translation mirrored the
     * primary name, the primary name follows it.
     */
    method SetName(lang: Lang, s: string)
      modifies this
      ensures i18Names == old(i18Names)[lang := s]
      ensures name == if lang in old(i18Names) && old(i18Names)[lang] == old(name) then s else old(name)
    {
      if lang in i18Names {
        var oldName := i18Names[lang];
        if oldName == name {
          name := s;
        }
        i18Names := i18Names[lang := s];
        return;
      }
      i18Names := i18Names[lang := s];
    }

    /** convertToMap: the entries are put in list order. */
    static method ConvertToMap(names: seq<I18AuthorName>) returns (m: map<Lang, string>)
      ensures m == ToMap(names)
    {
      m := map[];
      for i := 0 to |names|
        invariant m == ToMap(names[..i])
      {
        assert names[..i + 1][..i] == names[..i];
        m := m[names[i].lang := names[i].name];
      }
      assert names[..|names|] == names;
    }

    /** setI18Names: the map is replaced by the converted list. */
    method SetI18Names(names: seq<I18AuthorName>)
      modifies this
      ensures i18Names == ToMap(names) && name == old(name)
    {
      i18Names := ConvertToMap(names);
    }

    /**
     * getI18NamesAsList: one entry per language of the map, in the map's iteration order, which the
     * model leaves open.
     */
    method GetI18NamesAsList() returns (list: seq<I18AuthorName>)
      ensures |list| == |i18Names|
      ensures forall i :: 0 <= i < |list| ==> list[i].lang in i18Names && list[i].name == i18Names[list[i].lang]
      ensures forall i, j :: 0 <= i < j < |list| ==> list[i].lang != list[j].lang
      ensures ToMap(list) == i18Names
    {
      list := [];
      var rest := i18Names.Keys;
      while rest != {}
        invariant rest <= i18Names.Keys
        invariant |list| + |rest| == |i18Names|
        invariant forall i :: 0 <= i < |list| ==>
                    list[i].lang in i18Names.Keys - rest && list[i].name == i18Names[list[i].lang]
        invariant forall i, j :: 0 <= i < j < |list| ==> list[i].lang != list[j].lang
        invariant ToMap(list) == map k | k in i18Names.Keys - rest :: i18Names[k]
        decreases |rest|
      {
        var lang :| lang in rest;
        var entry := I18AuthorName(lang, i18Names[lang]);
        assert (list + [entry])[..|list|] == list;
        list := list + [entry];
        rest := rest - {lang};
      }
      assert i18Names.Keys - rest == i18Names.Keys;
    }

    /** equals: the same object, or another author with the same primary name. */
    predicate Equals(o: Author?)
      reads this, o
      ensures Equals(this)
      ensures Equals(o) <==> o != null && o.name == name
    {
      if this == o then true
      else if o == null then false
      else name == o.name
    }

    /** hashCode: the hash of the primary name. */
    function HashCode(): (h: int)
      reads this
      ensures -0x8000_0000 <= h < 0x8000_0000
      ensures name == "" ==> h == 0
    {
      StringHash(name)
    }
  }

  /** Equality and hash depend on the primary name only, never on the id or the translations. */
  lemma EqualityIsNameEquality(a: Author, o: Author?)
    ensures a.Equals(o) <==> o != null && o.name == a.name
    ensures a.Equals(o) ==> a.HashCode() == o.HashCode()
  {
  }

  /** Round trip: converting the list back reproduces the map exactly. */
  method ListRoundTrip(a: Author) returns (m: map<Lang, string>)
    ensures m == a.i18Names
  {
    var list := a.GetI18NamesAsList();
    m := Author.ConvertToMap(list);
  }

  /**
   * After setName(lang, s) the lookup of lang gives s with or without fallback; every other
   * language with a translation reads as before, and one without reads the primary name, which
   * may have followed the change.
   */
  method SetThenGet(a: Author, lang: Lang, s: string, other: Lang, fallback: bool)
    requires other != lang
    modifies a
    ensures a.GetName(lang, fallback) == s
    ensures other in a.i18Names <==> other in old(a.i18Names)
    ensures other in old(a.i18Names) || !fallback ==> a.GetName(other, fallback) == old(a.GetName(other, fallback))
    ensures other !in old(a.i18Names) && fallback ==> a.GetName(other, fallback) == a.name
  {
    a.SetName(lang, s);
  }
}
