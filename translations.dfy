/**
 * The client's translation of clue item names into Russian: the name is normalised
 * into a lookup key (trimmed, lower-cased, each whitespace run replaced by `_`) and
 * looked up in a fixed table; a name with no entry is shown as it came.
 */
module Translations {
  import opened Base
  import opened Text

  /**
   * A JavaScript value as far as the translation looks at it: a string, or any other
   * value, known only by an identity and whether it is truthy.
   */
  datatype JsValue = Str(s: string) | Other(id: int, truthy: bool)

  /** The argument of `translateHints`: an array, or anything else. */
  datatype JsHints = Arr(items: seq<JsValue>) | NotArray

  /** A Russian name of the table: never empty, so a key in the table never falls back. */
  type Name = s: string | s != [] witness "?"

  function Entry(key: string, name: Name): (string, Name)
  {
    (key, name)
  }

  /** `ITEM_TRANSLATIONS`: lower-case key and Russian name, in table order. */
  const ItemsA: seq<(string, Name)> := [
    Entry("jacket", "Куртка"),
    Entry("cane", "Трость"),
    Entry("flower", "Цветок"),
    Entry("top_hat", "Цилиндр"),
    Entry("necklace", "Ожерелье"),
    Entry("glasses", "Очки"),
    Entry("pocket_watch", "Карманные часы"),
    Entry("dress", "Платье"),
    Entry("umbrella", "Зонтик"),
    Entry("magnifier", "Лупа")
  ]

  const ItemsB: seq<(string, Name)> := [
    Entry("briefcase", "Портфель"),
    Entry("scarf", "Шарф"),
    Entry("gloves", "Перчатки"),
    Entry("watch", "Часы"),
    Entry("ring", "Кольцо"),
    Entry("boots", "Сапоги"),
    Entry("bag", "Сумка"),
    Entry("wallet", "Кошелек"),
    Entry("key", "Ключ"),
    Entry("book", "Книга")
  ]

  const ItemsC: seq<(string, Name)> := [
    Entry("pen", "Ручка"),
    Entry("phone", "Телефон"),
    Entry("camera", "Камера"),
    Entry("notebook", "Блокнот"),
    Entry("map", "Карта"),
    Entry("compass", "Компас"),
    Entry("binoculars", "Бинокль"),
    Entry("rope", "Верёвка"),
    Entry("knife", "Нож"),
    Entry("flashlight", "Фонарик")
  ]

  const ItemsD: seq<(string, Name)> := [
    Entry("medal", "Медаль"),
    Entry("badge", "Значок"),
    Entry("ticket", "Билет"),
    Entry("letter", "Письмо"),
    Entry("photo", "Фото"),
    Entry("diary", "Дневник"),
    Entry("mirror", "Зеркало"),
    Entry("candle", "Свеча"),
    Entry("matches", "Спички"),
    Entry("locket", "Медальон")
  ]

  const ItemsE: seq<(string, Name)> := [
    Entry("handkerchief", "Платок"),
    Entry("pipe", "Трубка"),
    Entry("cigar", "Сигара"),
    Entry("monocle", "Монокль"),
    Entry("cufflinks", "Запонки"),
    Entry("tie_pin", "Булавка для галстука"),
    Entry("button", "Пуговица"),
    Entry("thread", "Нить"),
    Entry("needle", "Игла"),
    Entry("fabric", "Ткань")
  ]

  const ItemsF: seq<(string, Name)> := [
    Entry("ribbon", "Лента"),
    Entry("brooch", "Брошь"),
    Entry("earring", "Серьга"),
    Entry("bracelet", "Браслет"),
    Entry("hat", "Шляпа"),
    Entry("coat", "Пальто"),
    Entry("lantern", "Фонарик"),
    Entry("basket", "Корзина"),
    Entry("magnifying_glass", "Лупа"),
    Entry("torch", "Факел")
  ]

  const ItemsG: seq<(string, Name)> := [
    Entry("cup", "Кружка"),
    Entry("teapot", "Чайник"),
    Entry("spoon", "Ложка"),
    Entry("fork", "Вилка"),
    Entry("apple", "Яблоко"),
    Entry("bread", "Хлеб"),
    Entry("cheese", "Сыр"),
    Entry("egg", "Яйцо"),
    Entry("mushroom", "Гриб"),
    Entry("berry", "Ягода")
  ]

  const ItemsH: seq<(string, Name)> := [
    Entry("acorn", "Жёлудь"),
    Entry("leaf", "Лист"),
    Entry("feather", "Перо"),
    Entry("paw", "Лапа"),
    Entry("pawprint", "След лапы"),
    Entry("paw_print", "След лапы"),
    Entry("footprint", "След"),
    Entry("bone", "Кость"),
    Entry("stick", "Палка"),
    Entry("stone", "Камень")
  ]

  const ItemsI: seq<(string, Name)> := [
    Entry("pinecone", "Шишка"),
    Entry("pine_cone", "Шишка"),
    Entry("rose", "Роза"),
    Entry("tulip", "Тюльпан"),
    Entry("daisy", "Ромашка"),
    Entry("sunflower", "Подсолнух"),
    Entry("clover", "Клевер"),
    Entry("honey", "Мёд"),
    Entry("honeycomb", "Соты"),
    Entry("nest", "Гнездо")
  ]

  const ItemsJ: seq<(string, Name)> := [
    Entry("shell", "Ракушка"),
    Entry("umbrella_alt", "Зонтик"),
    Entry("glove", "Перчатка"),
    Entry("magnifying", "Лупа"),
    Entry("magnifyingglass", "Лупа")
  ]

  const ItemTable: seq<(string, Name)> :=
    ItemsA + ItemsB + ItemsC + ItemsD + ItemsE + ItemsF + ItemsG + ItemsH + ItemsI + ItemsJ

  /** The entry of `key` in `entries` (the first, were there several). */
  function Find(entries: seq<(string, Name)>, key: string): (r: Option<Name>)
    ensures r.Some? ==> (key, r.value) in entries
    ensures r.None? <==> forall i :: 0 <= i < |entries| ==> entries[i].0 != key
  {
    if entries == [] then None
    else if entries[0].0 == key then Some(entries[0].1)
    else Find(entries[1..], key)
  }

  /**
   * `s` with each maximal run of characters of class `ws` replaced by one `_`
   * (`replace(/\s+/g, '_')` when `ws` is `IsJsSpace`); `inRun` says whether the
   * character before `s` was already of the class.
   */
  function Runs(s: string, ws: char -> bool, inRun: bool): (r: string)
  {
    if s == [] then []
    else if ws(s[0]) then (if inRun then [] else ['_']) + Runs(s[1..], ws, true)
    else [s[0]] + Runs(s[1..], ws, false)
  }

  function Collapse(s: string, ws: char -> bool): string
  {
    Runs(s, ws, false)
  }

  /** The lookup key of `translateItem`. */
  function Key(s: string): string
  {
    Collapse(LowerStr(JsTrim(s)), IsJsSpace)
  }

  /** `translateItem`: the table entry of the key, or the input itself. */
  function TranslateItem(v: JsValue): (r: JsValue)
    ensures !v.Str? || v.s == [] ==> r == (if v.Other? && v.truthy then v else Str(""))
    ensures v.Str? && v.s != [] && Find(ItemTable, Key(v.s)).Some? ==> r == Str(Find(ItemTable, Key(v.s)).value)
    ensures v.Str? && v.s != [] && Find(ItemTable, Key(v.s)).None? ==> r == v
  {
    match v
    case Other(_, truthy) => if truthy then v else Str("")
    case Str(s) =>
      if s == [] then Str("")
      else match Find(ItemTable, Key(s))
        case Some(name) => if name != [] then Str(name) else v
        case None => v
  }

  /** `translateHints`. */
  function TranslateHints(h: JsHints): (r: seq<JsValue>)
    ensures h.NotArray? ==> r == []
    ensures h.Arr? ==> |r| == |h.items| && forall i :: 0 <= i < |r| ==> r[i] == TranslateItem(h.items[i])
  {
    match h
    case NotArray => []
    case Arr(items) => seq(|items|, i requires 0 <= i < |items| => TranslateItem(items[i]))
  }

  /** A string every character of which is of class `ws`. */
  predicate AllOf(s: string, ws: char -> bool)
  {
    forall i :: 0 <= i < |s| ==> ws(s[i])
  }

  /** A lookup key: no whitespace, and lower-casing leaves every character as it is. */
  predicate IsKey(k: string)
  {
    forall i :: 0 <= i < |k| ==> !IsJsSpace(k[i]) && Lower(k[i]) == k[i]
  }

  /** Lower-casing neither makes nor removes whitespace. */
  lemma LowerKeepsSpace(c: char)
    ensures IsJsSpace(Lower(c)) <==> IsJsSpace(c)
  {
  }

  lemma LowerStrAppend(a: string, b: string)
    ensures LowerStr(a + b) == LowerStr(a) + LowerStr(b)
  {
    assert forall i :: 0 <= i < |a + b| ==> LowerStr(a + b)[i] == (LowerStr(a) + LowerStr(b))[i];
  }

  lemma LowerStrIdempotent(s: string)
    ensures LowerStr(LowerStr(s)) == LowerStr(s)
  {
    forall i | 0 <= i < |s| ensures LowerStr(LowerStr(s))[i] == LowerStr(s)[i] {
      LowerIdempotent(s[i]);
    }
  }

  lemma {:induction false} DropLeadingLower(s: string)
    ensures DropLeading(LowerStr(s), IsJsSpace) == LowerStr(DropLeading(s, IsJsSpace))
    decreases |s|
  {
    if s != [] {
      LowerKeepsSpace(s[0]);
      assert LowerStr(s)[1..] == LowerStr(s[1..]);
      if IsJsSpace(s[0]) {
        DropLeadingLower(s[1..]);
      }
    }
  }

  lemma {:induction false} DropTrailingLower(s: string)
    ensures DropTrailing(LowerStr(s), IsJsSpace) == LowerStr(DropTrailing(s, IsJsSpace))
    decreases |s|
  {
    if s != [] {
      LowerKeepsSpace(s[|s| - 1]);
      assert LowerStr(s)[..|s| - 1] == LowerStr(s[..|s| - 1]);
      if IsJsSpace(s[|s| - 1]) {
        DropTrailingLower(s[..|s| - 1]);
      }
    }
  }

  /** Trimming and lower-casing commute. */
  lemma TrimLower(s: string)
    ensures JsTrim(LowerStr(s)) == LowerStr(JsTrim(s))
  {
    DropLeadingLower(s);
    DropTrailingLower(DropLeading(s, IsJsSpace));
  }

  /** Leading characters of class `ws` before a string with another character are dropped up to it. */
  lemma {:induction false} DropLeadingAppend(s: string, q: string, ws: char -> bool)
    requires !AllOf(s, ws)
    ensures DropLeading(s + q, ws) == DropLeading(s, ws) + q
    decreases |s|
  {
    assert s != [];
    if ws(s[0]) {
      assert (s + q)[1..] == s[1..] + q;
      assert !AllOf(s[1..], ws) by {
        var i :| 0 <= i < |s| && !ws(s[i]);
        assert s[1..][i - 1] == s[i];
      }
      DropLeadingAppend(s[1..], q, ws);
    }
  }

  lemma {:induction false} DropLeadingPadding(p: string, m: string, ws: char -> bool)
    requires AllOf(p, ws)
    ensures DropLeading(p + m, ws) == DropLeading(m, ws)
    decreases |p|
  {
    if p != [] {
      assert (p + m)[0] == p[0] && (p + m)[1..] == p[1..] + m;
      assert AllOf(p[1..], ws);
      DropLeadingPadding(p[1..], m, ws);
    } else {
      assert p + m == m;
    }
  }

  lemma {:induction false} DropTrailingPadding(m: string, q: string, ws: char -> bool)
    requires AllOf(q, ws)
    ensures DropTrailing(m + q, ws) == DropTrailing(m, ws)
    decreases |q|
  {
    if q != [] {
      assert (m + q)[..|m + q| - 1] == m + q[..|q| - 1];
      DropTrailingPadding(m, q[..|q| - 1], ws);
    } else {
      assert m + q == m;
    }
  }

  /** Trailing padding after a string made only of the class leaves nothing. */
  lemma TrimBlankThenPadding(s: string, q: string, ws: char -> bool)
    requires AllOf(s, ws) && AllOf(q, ws)
    ensures DropTrailing(DropLeading(s + q, ws), ws) == [] && Trim(s, ws) == []
  {
    assert AllOf(s + q, ws);
  }

  /** Trailing padding after a string with another character is trimmed away with it. */
  lemma TrimWordThenPadding(s: string, q: string, ws: char -> bool)
    requires !AllOf(s, ws) && AllOf(q, ws)
    ensures DropTrailing(DropLeading(s + q, ws), ws) == Trim(s, ws)
  {
    DropLeadingAppend(s, q, ws);
    DropTrailingPadding(DropLeading(s, ws), q, ws);
  }

  /** Padding around a string does not reach its trimmed form. */
  lemma TrimPadding(p: string, s: string, q: string, ws: char -> bool)
    requires AllOf(p, ws) && AllOf(q, ws)
    ensures Trim(p + s + q, ws) == Trim(s, ws)
  {
    assert p + s + q == p + (s + q);
    DropLeadingPadding(p, s + q, ws);
    if AllOf(s, ws) {
      TrimBlankThenPadding(s, q, ws);
    } else {
      TrimWordThenPadding(s, q, ws);
    }
  }

  /** Whether the character before what follows `x` is of the class. */
  function EndsInRun(x: string, ws: char -> bool, inRun: bool): bool
  {
    if x == [] then inRun else ws(x[|x| - 1])
  }

  lemma ConcatAssoc(a: string, b: string, c: string)
    ensures a + (b + c) == (a + b) + c
  {
  }

  /** Collapsing a concatenation is collapsing each part, the second knowing how the first ended. */
  lemma {:induction false} RunsAppend(x: string, y: string, ws: char -> bool, inRun: bool)
    ensures Runs(x + y, ws, inRun) == Runs(x, ws, inRun) + Runs(y, ws, EndsInRun(x, ws, inRun))
    decreases |x|
  {
    if x == [] {
      assert x + y == y;
    } else {
      var head := if ws(x[0]) then (if inRun then [] else ['_']) else [x[0]];
      assert (x + y)[0] == x[0] && (x + y)[1..] == x[1..] + y;
      assert Runs(x + y, ws, inRun) == head + Runs(x[1..] + y, ws, ws(x[0]));
      assert Runs(x, ws, inRun) == head + Runs(x[1..], ws, ws(x[0]));
      RunsAppend(x[1..], y, ws, ws(x[0]));
      assert EndsInRun(x[1..], ws, ws(x[0])) == EndsInRun(x, ws, inRun) by {
        if x[1..] != [] { assert x[1..][|x[1..]| - 1] == x[|x| - 1]; }
      }
      ConcatAssoc(head, Runs(x[1..], ws, ws(x[0])), Runs(y, ws, EndsInRun(x, ws, inRun)));
    }
  }

  /** A non-empty run collapses to one `_`. */
  lemma {:induction false} RunsAllOf(w: string, ws: char -> bool, inRun: bool)
    requires AllOf(w, ws)
    ensures Runs(w, ws, inRun) == if w == [] || inRun then [] else ['_']
    decreases |w|
  {
    if w != [] {
      assert AllOf(w[1..], ws);
      RunsAllOf(w[1..], ws, true);
    }
  }

  /** Collapsing leaves no character of the class and brings in none but `_`. */
  lemma {:induction false} RunsChars(s: string, ws: char -> bool, inRun: bool)
    ensures forall i :: 0 <= i < |Runs(s, ws, inRun)| ==> !ws(Runs(s, ws, inRun)[i]) || Runs(s, ws, inRun)[i] == '_'
    ensures forall i :: 0 <= i < |Runs(s, ws, inRun)| ==> Runs(s, ws, inRun)[i] == '_' || Runs(s, ws, inRun)[i] in s
    decreases |s|
  {
    if s != [] {
      RunsChars(s[1..], ws, ws(s[0]));
      assert forall c :: c in s[1..] ==> c in s;
    }
  }

  /** A string with no character of the class collapses to itself. */
  lemma {:induction false} RunsNone(s: string, ws: char -> bool, inRun: bool)
    requires forall i :: 0 <= i < |s| ==> !ws(s[i])
    ensures Runs(s, ws, inRun) == s
    decreases |s|
  {
    if s != [] {
      RunsNone(s[1..], ws, false);
    }
  }

  /** Every key is in normal form. */
  lemma KeyIsKey(s: string)
    ensures IsKey(Key(s))
  {
    var l := LowerStr(JsTrim(s));
    var k := Collapse(l, IsJsSpace);
    RunsChars(l, IsJsSpace, false);
    forall i | 0 <= i < |k| ensures Lower(k[i]) == k[i] {
      if k[i] != '_' {
        var j :| 0 <= j < |l| && l[j] == k[i];
        LowerIdempotent(JsTrim(s)[j]);
      }
    }
  }

  /** A string in normal form is its own key. */
  lemma KeyOfKey(k: string)
    requires IsKey(k)
    ensures Key(k) == k
  {
    assert JsTrim(k) == k;
    assert LowerStr(k) == k;
    RunsNone(k, IsJsSpace, false);
  }

  /** Normalising twice is normalising once. */
  lemma KeyIdempotent(s: string)
    ensures Key(Key(s)) == Key(s)
  {
    KeyIsKey(s);
    KeyOfKey(Key(s));
  }

  /** Case does not matter. */
  lemma KeyIgnoresCase(s: string)
    ensures Key(LowerStr(s)) == Key(s)
  {
    TrimLower(s);
    LowerStrIdempotent(JsTrim(s));
  }

  /** Surrounding whitespace does not matter. */
  lemma KeyIgnoresPadding(p: string, s: string, q: string)
    requires AllOf(p, IsJsSpace) && AllOf(q, IsJsSpace)
    ensures Key(p + s + q) == Key(s)
  {
    TrimPadding(p, s, q, IsJsSpace);
  }

  /** Two words around a non-empty run collapse to the words around one `_`. */
  lemma RunsAroundGap(x: string, w: string, y: string, ws: char -> bool)
    requires x != [] && !ws(x[|x| - 1]) && y != [] && !ws(y[0])
    requires w != [] && AllOf(w, ws)
    ensures Runs(x + w + y, ws, false) == Runs(x, ws, false) + ['_'] + Runs(y, ws, false)
  {
    var rx, ry := Runs(x, ws, false), Runs(y, ws, false);
    assert x + w + y == x + (w + y);
    assert EndsInRun(x, ws, false) == false;
    RunsAppend(x, w + y, ws, false);
    assert EndsInRun(w, ws, false) by { assert ws(w[|w| - 1]); }
    RunsAppend(w, y, ws, false);
    RunsAllOf(w, ws, false);
    assert Runs(y, ws, true) == ry;
    assert Runs(w + y, ws, false) == ['_'] + ry;
    ConcatAssoc(rx, ['_'], ry);
  }

  /** Two words around one `_` collapse to themselves around it. */
  lemma RunsAroundUnderscore(x: string, y: string, ws: char -> bool)
    requires x != [] && !ws(x[|x| - 1]) && !ws('_')
    ensures Runs(x + "_" + y, ws, false) == Runs(x, ws, false) + ['_'] + Runs(y, ws, false)
  {
    assert x + "_" + y == x + ("_" + y);
    RunsAppend(x, "_" + y, ws, false);
    assert ("_" + y)[0] == '_' && ("_" + y)[1..] == y;
  }

  /** Lower-casing three pieces is lower-casing each; a run stays a run. */
  lemma LowerAroundGap(a: string, w: string, b: string)
    ensures LowerStr(a + w + b) == LowerStr(a) + LowerStr(w) + LowerStr(b)
    ensures AllOf(w, IsJsSpace) ==> AllOf(LowerStr(w), IsJsSpace)
  {
    LowerStrAppend(a + w, b);
    LowerStrAppend(a, w);
    forall i | 0 <= i < |w| && IsJsSpace(w[i]) ensures IsJsSpace(LowerStr(w)[i]) { LowerKeepsSpace(w[i]); }
  }

  /** A string that starts and ends outside the class is its own trimmed form. */
  lemma TrimWord(s: string)
    requires s != [] && !IsJsSpace(s[0]) && !IsJsSpace(s[|s| - 1])
    ensures JsTrim(s) == s
  {
  }

  /** Lower-casing a word keeps its ends outside the whitespace class. */
  lemma LowerWord(a: string)
    requires a != [] && !IsJsSpace(a[0]) && !IsJsSpace(a[|a| - 1])
    ensures var l := LowerStr(a); l != [] && !IsJsSpace(l[0]) && !IsJsSpace(l[|l| - 1])
  {
    LowerKeepsSpace(a[0]);
    LowerKeepsSpace(a[|a| - 1]);
  }

  /** A run between two words collapses the same as one `_` there. */
  lemma RunsGapAsUnderscore(x: string, w: string, y: string, ws: char -> bool)
    requires x != [] && !ws(x[|x| - 1]) && y != [] && !ws(y[0]) && !ws('_')
    requires w != [] && AllOf(w, ws)
    ensures Runs(x + w + y, ws, false) == Runs(x + "_" + y, ws, false)
  {
    RunsAroundGap(x, w, y, ws);
    RunsAroundUnderscore(x, y, ws);
  }

  /** Lower-casing a run of whitespace leaves a run of whitespace. */
  lemma LowerRun(w: string)
    requires w != [] && AllOf(w, IsJsSpace)
    ensures LowerStr(w) != [] && AllOf(LowerStr(w), IsJsSpace)
  {
    LowerAroundGap([], w, []);
    assert [] + w + [] == w;
    assert [] + LowerStr(w) + [] == LowerStr(w);
  }

  /** The trimmed, lower-cased form of two words around a middle piece. */
  lemma NormalAroundGap(a: string, w: string, b: string)
    requires a != [] && !IsJsSpace(a[0]) && b != [] && !IsJsSpace(b[|b| - 1])
    ensures LowerStr(JsTrim(a + w + b)) == LowerStr(a) + LowerStr(w) + LowerStr(b)
  {
    var s1 := a + w + b;
    assert s1[0] == a[0] && s1[|s1| - 1] == b[|b| - 1];
    TrimWord(s1);
    LowerAroundGap(a, w, b);
  }

  /** `Underscore` is the lower-case form of `"_"`, which is not whitespace. */
  lemma Underscore()
    ensures LowerStr("_") == "_" && !IsJsSpace('_')
  {
    assert LowerStr("_") == [Lower('_')] + LowerStr([]);
  }

  /** The key of a string is the collapse of its trimmed, lower-cased form. */
  lemma KeyUnfold(s: string, l: string)
    requires l == LowerStr(JsTrim(s))
    ensures Key(s) == Runs(l, IsJsSpace, false)
  {
  }

  /** A run of whitespace between two words is the same as one `_`. */
  lemma KeySpacesAsUnderscore(a: string, w: string, b: string)
    requires a != [] && !IsJsSpace(a[0]) && !IsJsSpace(a[|a| - 1])
    requires b != [] && !IsJsSpace(b[0]) && !IsJsSpace(b[|b| - 1])
    requires w != [] && AllOf(w, IsJsSpace)
    ensures Key(a + w + b) == Key(a + "_" + b)
  {
    var la, lw, lb := LowerStr(a), LowerStr(w), LowerStr(b);
    NormalAroundGap(a, w, b);
    NormalAroundGap(a, "_", b);
    Underscore();
    KeyUnfold(a + w + b, la + lw + lb);
    KeyUnfold(a + "_" + b, la + "_" + lb);
    LowerWord(a);
    LowerWord(b);
    LowerRun(w);
    RunsGapAsUnderscore(la, lw, lb, IsJsSpace);
  }

  /**
   * Two spellings with the same key translate the same once the key is in the table:
   * differences in case, in surrounding whitespace, or between whitespace runs and `_`.
   */
  lemma SameKeySameTranslation(a: string, b: string)
    requires a != [] && b != [] && Key(a) == Key(b) && Find(ItemTable, Key(a)).Some?
    ensures TranslateItem(Str(a)) == TranslateItem(Str(b)) == Str(Find(ItemTable, Key(a)).value)
  {
  }

  /** An unknown name is shown as it came. */
  lemma UnknownShownAsIs(s: string)
    requires Find(ItemTable, Key(s)).None?
    ensures TranslateItem(Str(s)) == Str(s)
  {
  }
}
