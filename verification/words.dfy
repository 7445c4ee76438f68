/** Amounts in words, in Azerbaijani and in Russian, and a decoder that reads them back.

    The program joins the words of a group with single spaces, and the groups with single spaces again; here an
    amount is the list of its words, joined once at the end. */
module Words {
  const RU_ONES_M: seq<string> := ["", "один", "два", "три", "четыре", "пять", "шесть", "семь", "восемь", "девять"]
  const RU_ONES_F: seq<string> := ["", "одна", "две", "три", "четыре", "пять", "шесть", "семь", "восемь", "девять"]
  const RU_TEENS: seq<string> := ["десять", "одиннадцать", "двенадцать", "тринадцать", "четырнадцать", "пятнадцать",
    "шестнадцать", "семнадцать", "восемнадцать", "девятнадцать"]
  const RU_TENS: seq<string> := ["", "", "двадцать", "тридцать", "сорок", "пятьдесят", "шестьдесят", "семьдесят",
    "восемьдесят", "девяносто"]
  const RU_HUNDREDS: seq<string> := ["", "сто", "двести", "триста", "четыреста", "пятьсот", "шестьсот", "семьсот",
    "восемьсот", "девятьсот"]

  const AZ_ONES: seq<string> := ["", "bir", "iki", "üç", "dörd", "beş", "altı", "yeddi", "səkkiz", "doqquz"]
  const AZ_TENS: seq<string> := ["", "on", "iyirmi", "otuz", "qırx", "əlli", "altmış", "yetmiş", "səksən", "doxsan"]
  const AZ_SCALE: seq<string> := ["", "min", "milyon", "milyard"]

  datatype Lang = Az | Ru

  // ----- Printing

  /** The groups of three digits, lowest first. */
  function Triads(n: nat): (r: seq<nat>)
    ensures |r| > 0 && forall i :: 0 <= i < |r| ==> r[i] < 1000
  {
    if n < 1000 then [n] else [n % 1000] + Triads(n / 1000)
  }

  function RuPlural(n: nat, one: string, few: string, many: string): string {
    var x := n % 100;
    var y := x % 10;
    if 11 <= x <= 19 then many
    else if y == 1 then one
    else if 2 <= y <= 4 then few
    else many
  }

  /** The words of the two lower digits. */
  function RuRest(t: nat, o: nat, feminine: bool): seq<string>
    requires t <= 9 && o <= 9
  {
    if t == 1 then [RU_TEENS[o]]
    else
      (if t > 0 then [RU_TENS[t]] else []) +
      if o > 0 then [(if feminine then RU_ONES_F else RU_ONES_M)[o]] else []
  }

  function RuTriad(n: nat, feminine: bool): seq<string>
    requires n < 1000
  {
    var h := n / 100;
    (if h > 0 then [RU_HUNDREDS[h]] else []) + RuRest(n % 100 / 10, n % 10, feminine)
  }

  /** The scale word of group `i`; past the table the last scale is used again. */
  function RuScale(tri: nat, i: nat): string {
    if i == 0 then RuPlural(tri, "", "", "")
    else if i == 1 then RuPlural(tri, "тысяча", "тысячи", "тысяч")
    else if i == 2 then RuPlural(tri, "миллион", "миллиона", "миллионов")
    else RuPlural(tri, "миллиард", "миллиарда", "миллиардов")
  }

  function RuGroup(tri: nat, i: nat): seq<string>
    requires tri < 1000
  {
    if tri == 0 then [] else RuTriad(tri, i == 1) + if i > 0 then [RuScale(tri, i)] else []
  }

  /** One hundred is just "yüz". */
  function AzHundreds(h: nat): seq<string>
    requires h <= 9
  {
    if h == 0 then [] else if h == 1 then ["yüz"] else [AZ_ONES[h], "yüz"]
  }

  function AzRest(t: nat, o: nat): seq<string>
    requires t <= 9 && o <= 9
  {
    (if t > 0 then [AZ_TENS[t]] else []) + if o > 0 then [AZ_ONES[o]] else []
  }

  function AzTriad(n: nat): seq<string>
    requires n < 1000
  {
    AzHundreds(n / 100) + AzRest(n % 100 / 10, n % 10)
  }

  /** The words of group `i`; one thousand is just "min", and past the table there is no scale word. */
  function AzGroup(tri: nat, i: nat): seq<string>
    requires tri < 1000
  {
    if tri == 0 then []
    else if i == 1 && tri == 1 then ["min"]
    else AzTriad(tri) + if 0 < i < |AZ_SCALE| then [AZ_SCALE[i]] else []
  }

  function Group(lang: Lang, tri: nat, i: nat): seq<string>
    requires tri < 1000
  {
    match lang case Az => AzGroup(tri, i) case Ru => RuGroup(tri, i)
  }

  /** The words of the `k` lowest groups, highest group first. */
  function GroupsBelow(lang: Lang, units: seq<nat>, k: nat): seq<string>
    requires k <= |units| && forall i :: 0 <= i < |units| ==> units[i] < 1000
  {
    if k == 0 then [] else Group(lang, units[k - 1], k - 1) + GroupsBelow(lang, units, k - 1)
  }

  function Zero(lang: Lang): string {
    match lang case Az => "sıfır" case Ru => "ноль"
  }

  function IntToWords(lang: Lang, n: nat): seq<string> {
    if n == 0 then [Zero(lang)] else GroupsBelow(lang, Triads(n), |Triads(n)|)
  }

  function Manat(lang: Lang, n: nat): string {
    match lang case Az => "manat" case Ru => RuPlural(n, "манат", "маната", "манатов")
  }

  function Kopek(lang: Lang, n: nat): string {
    match lang case Az => "qəpik" case Ru => RuPlural(n, "копейка", "копейки", "копеек")
  }

  function AmountWords(lang: Lang, intPart: nat, fracPart: nat): seq<string> {
    IntToWords(lang, intPart) + [Manat(lang, intPart)] + IntToWords(lang, fracPart) + [Kopek(lang, fracPart)]
  }

  function Join(words: seq<string>): string {
    if words == [] then "" else if |words| == 1 then words[0] else words[0] + " " + Join(words[1..])
  }

  /** `toUpperCase` on the letters a word can start with: Latin and Cyrillic small letters, "ü" and "ə". */
  function Upper(c: char): char {
    if 'a' <= c <= 'z' || 'а' <= c <= 'я' || c == 'ü' then (c as int - 32) as char
    else if c == 'ə' then 'Ə'
    else c
  }

  function CapFirst(s: string): string {
    if s == "" then s else [Upper(s[0])] + s[1..]
  }

  /** `amountToWords`, from the whole manats and the kopeks. */
  function AmountToWords(lang: Lang, intPart: nat, fracPart: nat): string {
    CapFirst(Join(AmountWords(lang, intPart, fracPart)))
  }

  // ----- Reading

  function Lower(c: char): char {
    if 'A' <= c <= 'Z' || 'А' <= c <= 'Я' || c == 'Ü' then (c as int + 32) as char
    else if c == 'Ə' then 'ə'
    else c
  }

  predicate IsCapital(c: char) {
    'A' <= c <= 'Z' || 'А' <= c <= 'Я' || c in {'Ü', 'Ə'}
  }

  /** No spaces, and a first letter that can be made a capital and back. */
  predicate IsWord(w: string) {
    && w != "" && (forall i :: 0 <= i < |w| ==> w[i] != ' ')
    && IsCapital(Upper(w[0])) && Lower(Upper(w[0])) == w[0]
  }

  /** The form in which a Russian noun follows a number; Azerbaijani nouns have one form. */
  datatype Form = Single | Few | Many | Plain

  datatype Gender = Any | Masculine | Feminine

  datatype Noun = Manats | Kopeks

  /** What a word means, with the gender of a number word and the form of a noun. */
  datatype Token =
    | Number(v: nat, gender: Gender)
    | Hundred
    | Scale(e: nat, form: Form)
    | Unit(noun: Noun, form: Form)
    | Unknown

  function RuToken3(w: string): (t: Token)
    ensures t != Unknown ==> IsWord(w)
  {
    if w == "два" then Number(2, Masculine)
    else if w == "две" then Number(2, Feminine)
    else if w == "три" then Number(3, Any)
    else if w == "сто" then Number(100, Any)
    else Unknown
  }

  function RuToken4(w: string): (t: Token)
    ensures t != Unknown ==> IsWord(w)
  {
    if w == "один" then Number(1, Masculine)
    else if w == "одна" then Number(1, Feminine)
    else if w == "пять" then Number(5, Any)
    else if w == "семь" then Number(7, Any)
    else if w == "ноль" then Number(0, Any)
    else Unknown
  }

  function RuToken5(w: string): (t: Token)
    ensures t != Unknown ==> IsWord(w)
  {
    if w == "шесть" then Number(6, Any)
    else if w == "сорок" then Number(40, Any)
    else if w == "тысяч" then Scale(1, Many)
    else if w == "манат" then Unit(Manats, Single)
    else Unknown
  }

  function RuToken6(w: string): (t: Token)
    ensures t != Unknown ==> IsWord(w)
  {
    if w == "четыре" then Number(4, Any)
    else if w == "восемь" then Number(8, Any)
    else if w == "девять" then Number(9, Any)
    else if w == "десять" then Number(10, Any)
    else if w == "двести" then Number(200, Any)
    else if w == "триста" then Number(300, Any)
    else if w == "тысяча" then Scale(1, Single)
    else if w == "тысячи" then Scale(1, Few)
    else if w == "маната" then Unit(Manats, Few)
    else if w == "копеек" then Unit(Kopeks, Many)
    else Unknown
  }

  function RuToken7(w: string): (t: Token)
    ensures t != Unknown ==> IsWord(w)
  {
    if w == "пятьсот" then Number(500, Any)
    else if w == "семьсот" then Number(700, Any)
    else if w == "миллион" then Scale(2, Single)
    else if w == "манатов" then Unit(Manats, Many)
    else if w == "копейка" then Unit(Kopeks, Single)
    else if w == "копейки" then Unit(Kopeks, Few)
    else Unknown
  }

  function RuToken8(w: string): (t: Token)
    ensures t != Unknown ==> IsWord(w)
  {
    if w == "двадцать" then Number(20, Any)
    else if w == "тридцать" then Number(30, Any)
    else if w == "шестьсот" then Number(600, Any)
    else if w == "миллиона" then Scale(2, Few)
    else if w == "миллиард" then Scale(3, Single)
    else Unknown
  }

  function RuToken9(w: string): (t: Token)
    ensures t != Unknown ==> IsWord(w)
  {
    if w == "пятьдесят" then Number(50, Any)
    else if w == "семьдесят" then Number(70, Any)
    else if w == "девяносто" then Number(90, Any)
    else if w == "четыреста" then Number(400, Any)
    else if w == "восемьсот" then Number(800, Any)
    else if w == "девятьсот" then Number(900, Any)
    else if w == "миллионов" then Scale(2, Many)
    else if w == "миллиарда" then Scale(3, Few)
    else Unknown
  }

  function RuToken10(w: string): (t: Token)
    ensures t != Unknown ==> IsWord(w)
  {
    if w == "двенадцать" then Number(12, Any)
    else if w == "тринадцать" then Number(13, Any)
    else if w == "пятнадцать" then Number(15, Any)
    else if w == "семнадцать" then Number(17, Any)
    else if w == "шестьдесят" then Number(60, Any)
    else if w == "миллиардов" then Scale(3, Many)
    else Unknown
  }

  function RuToken11(w: string): (t: Token)
    ensures t != Unknown ==> IsWord(w)
  {
    if w == "одиннадцать" then Number(11, Any)
    else if w == "шестнадцать" then Number(16, Any)
    else if w == "восемьдесят" then Number(80, Any)
    else Unknown
  }

  function RuToken12(w: string): (t: Token)
    ensures t != Unknown ==> IsWord(w)
  {
    if w == "четырнадцать" then Number(14, Any)
    else if w == "восемнадцать" then Number(18, Any)
    else if w == "девятнадцать" then Number(19, Any)
    else Unknown
  }

  /** The meaning of a word; words are told apart by their length first. */
  function RuToken(w: string): (t: Token)
    ensures t != Unknown ==> IsWord(w)
  {
    if |w| == 3 then RuToken3(w)
    else if |w| == 4 then RuToken4(w)
    else if |w| == 5 then RuToken5(w)
    else if |w| == 6 then RuToken6(w)
    else if |w| == 7 then RuToken7(w)
    else if |w| == 8 then RuToken8(w)
    else if |w| == 9 then RuToken9(w)
    else if |w| == 10 then RuToken10(w)
    else if |w| == 11 then RuToken11(w)
    else if |w| == 12 then RuToken12(w)
    else Unknown
  }

  function AzToken2(w: string): (t: Token)
    ensures t != Unknown ==> IsWord(w)
  {
    if w == "üç" then Number(3, Any)
    else if w == "on" then Number(10, Any)
    else Unknown
  }

  function AzToken3(w: string): (t: Token)
    ensures t != Unknown ==> IsWord(w)
  {
    if w == "bir" then Number(1, Any)
    else if w == "iki" then Number(2, Any)
    else if w == "beş" then Number(5, Any)
    else if w == "yüz" then Hundred
    else if w == "min" then Scale(1, Plain)
    else Unknown
  }

  function AzToken4(w: string): (t: Token)
    ensures t != Unknown ==> IsWord(w)
  {
    if w == "dörd" then Number(4, Any)
    else if w == "altı" then Number(6, Any)
    else if w == "otuz" then Number(30, Any)
    else if w == "qırx" then Number(40, Any)
    else if w == "əlli" then Number(50, Any)
    else Unknown
  }

  function AzToken5(w: string): (t: Token)
    ensures t != Unknown ==> IsWord(w)
  {
    if w == "yeddi" then Number(7, Any)
    else if w == "sıfır" then Number(0, Any)
    else if w == "manat" then Unit(Manats, Plain)
    else if w == "qəpik" then Unit(Kopeks, Plain)
    else Unknown
  }

  function AzToken6(w: string): (t: Token)
    ensures t != Unknown ==> IsWord(w)
  {
    if w == "səkkiz" then Number(8, Any)
    else if w == "doqquz" then Number(9, Any)
    else if w == "iyirmi" then Number(20, Any)
    else if w == "altmış" then Number(60, Any)
    else if w == "yetmiş" then Number(70, Any)
    else if w == "səksən" then Number(80, Any)
    else if w == "doxsan" then Number(90, Any)
    else if w == "milyon" then Scale(2, Plain)
    else Unknown
  }

  function AzToken7(w: string): (t: Token)
    ensures t != Unknown ==> IsWord(w)
  {
    if w == "milyard" then Scale(3, Plain)
    else Unknown
  }

  /** The meaning of a word; words are told apart by their length first. */
  function AzToken(w: string): (t: Token)
    ensures t != Unknown ==> IsWord(w)
  {
    if |w| == 2 then AzToken2(w)
    else if |w| == 3 then AzToken3(w)
    else if |w| == 4 then AzToken4(w)
    else if |w| == 5 then AzToken5(w)
    else if |w| == 6 then AzToken6(w)
    else if |w| == 7 then AzToken7(w)
    else Unknown
  }

  function TokenOf(lang: Lang, w: string): (t: Token)
    ensures t != Unknown ==> IsWord(w)
  {
    match lang case Az => AzToken(w) case Ru => RuToken(w)
  }

  /** A number that was read, the noun it counts, whether the words come in the order of the grammar and each noun
      and scale word stands in the form its number asks for, and whether the last word has the gender of the noun. */
  datatype Phrase = Phrase(number: nat, noun: Noun, wellFormed: bool, agrees: bool)

  /** How the current number reads: whether it is well formed so far, what the next number word has to be less than,
      the scale the next scale word has to be below, and the gender of the last word. */
  datatype Style = Style(fits: bool, room: nat, scale: nat, gender: Gender)

  const FRESH := Style(true, 1000, 4, Any)

  /** The phrases read so far, the scaled groups of the current number, and the group being read. */
  datatype Reading = Reading(phrases: seq<Phrase>, total: nat, cur: nat, style: Style)

  const START := Reading([], 0, 0, FRESH)

  function Pow1000(e: nat): nat {
    if e == 0 then 1 else if e == 1 then 1_000 else if e == 2 then 1_000_000 else 1_000_000_000
  }

  /** The form a number asks for: 1 but not 11, 2 to 4 but not 12 to 14, and all others. */
  predicate Asks(n: nat, form: Form) {
    match form
    case Single => n % 10 == 1 && n % 100 != 11
    case Few => n % 10 in {2, 3, 4} && n % 100 !in {12, 13, 14}
    case Many => n % 10 !in {1, 2, 3, 4} || n % 100 in {11, 12, 13, 14}
    case Plain => true
  }

  predicate Suits(gender: Gender, feminine: bool) {
    gender.Any? || gender.Feminine? == feminine
  }

  /** After hundreds there is room for tens and ones, after tens for ones; Azerbaijani has no words for 11 to 19. */
  function Room(lang: Lang, v: nat): nat {
    if v >= 100 then 100 else if v >= 20 || (v == 10 && lang == Az) then 10 else 0
  }

  /** The word can come next. One thousand is just "min" and one hundred just "yüz"; a Russian scale word needs a number
      before it, and only the thousand is feminine. */
  predicate Fits(lang: Lang, r: Reading, t: Token) {
    match t
    case Number(v, _) => v < r.style.room && (v == 0 ==> r.style.room == 1000 && r.style.scale == 4)
    case Hundred => (r.cur == 0 && r.style.room == 1000) || (2 <= r.cur <= 9 && r.style.room == 0)
    case Scale(e, form) =>
      && e < r.style.scale && Asks(r.cur, form)
      && (if lang == Ru then r.cur > 0 && Suits(r.style.gender, e == 1)
          else if e == 1 then r.cur > 1 || (r.cur == 0 && r.style.room == 1000)
          else r.cur > 0)
    case Unit(_, form) => Asks(r.total + r.cur, form) && (r.style.room < 1000 || r.style.scale < 4)
    case Unknown => false
  }

  function Read(lang: Lang, r: Reading, t: Token): Reading {
    var fits := r.style.fits && Fits(lang, r, t);
    match t
    case Number(v, gender) => r.(cur := r.cur + v, style := Style(fits, Room(lang, v), r.style.scale, gender))
    case Hundred => r.(cur := if r.cur == 0 then 100 else r.cur * 100, style := Style(fits, 100, r.style.scale, Any))
    case Scale(e, _) =>
      r.(total := r.total + (if r.cur == 0 then 1 else r.cur) * Pow1000(e), cur := 0,
         style := Style(fits, 1000, e, Any))
    case Unit(noun, _) =>
      Reading(r.phrases + [Phrase(r.total + r.cur, noun, fits, Suits(r.style.gender, noun == Kopeks))], 0, 0, FRESH)
    case Unknown => r.(style := r.style.(fits := false))
  }

  function ReadAll(lang: Lang, r: Reading, words: seq<string>): Reading
    decreases |words|
  {
    if words == [] then r else ReadAll(lang, Read(lang, r, TokenOf(lang, words[0])), words[1..])
  }

  /** `word` is the word being read. */
  function Split(word: string, s: string): seq<string>
    decreases |s|
  {
    if s == "" then [word]
    else if s[0] == ' ' then [word] + Split("", s[1..])
    else Split(word + [s[0]], s[1..])
  }

  function UncapFirst(s: string): string {
    if s == "" then s else [Lower(s[0])] + s[1..]
  }

  /** The numbers an amount in words names, with their nouns. */
  function Decode(lang: Lang, text: string): seq<Phrase> {
    ReadAll(lang, START, Split("", UncapFirst(text))).phrases
  }

  // ----- The words are told apart

  lemma RuHundredsWordsA()
    ensures RuToken("сто") == Number(100, Any)
    ensures RuToken("двести") == Number(200, Any)
    ensures RuToken("триста") == Number(300, Any)
    ensures RuToken("четыреста") == Number(400, Any)
    ensures RuToken("пятьсот") == Number(500, Any)
  {
  }

  lemma RuHundredsWordsB()
    ensures RuToken("шестьсот") == Number(600, Any)
    ensures RuToken("семьсот") == Number(700, Any)
    ensures RuToken("восемьсот") == Number(800, Any)
    ensures RuToken("девятьсот") == Number(900, Any)
  {
  }

  lemma RuHundredsValue(i: nat)
    requires 1 <= i <= 9
    ensures RuToken(RU_HUNDREDS[i]) == Number(100 * i, Any)
  {
    hide RuToken;
    RuHundredsWordsA();
    RuHundredsWordsB();
  }

  lemma RuTeensWordsA()
    ensures RuToken("десять") == Number(10, Any)
    ensures RuToken("одиннадцать") == Number(11, Any)
    ensures RuToken("двенадцать") == Number(12, Any)
    ensures RuToken("тринадцать") == Number(13, Any)
    ensures RuToken("четырнадцать") == Number(14, Any)
  {
  }

  lemma RuTeensWordsB()
    ensures RuToken("пятнадцать") == Number(15, Any)
    ensures RuToken("шестнадцать") == Number(16, Any)
    ensures RuToken("семнадцать") == Number(17, Any)
    ensures RuToken("восемнадцать") == Number(18, Any)
    ensures RuToken("девятнадцать") == Number(19, Any)
  {
  }

  lemma RuTeensValue(i: nat)
    requires i <= 9
    ensures RuToken(RU_TEENS[i]) == Number(10 + i, Any)
  {
    hide RuToken;
    RuTeensWordsA();
    RuTeensWordsB();
  }

  lemma RuTensWordsA()
    ensures RuToken("двадцать") == Number(20, Any)
    ensures RuToken("тридцать") == Number(30, Any)
    ensures RuToken("сорок") == Number(40, Any)
    ensures RuToken("пятьдесят") == Number(50, Any)
  {
  }

  lemma RuTensWordsB()
    ensures RuToken("шестьдесят") == Number(60, Any)
    ensures RuToken("семьдесят") == Number(70, Any)
    ensures RuToken("восемьдесят") == Number(80, Any)
    ensures RuToken("девяносто") == Number(90, Any)
  {
  }

  lemma RuTensValue(i: nat)
    requires 2 <= i <= 9
    ensures RuToken(RU_TENS[i]) == Number(10 * i, Any)
  {
    hide RuToken;
    RuTensWordsA();
    RuTensWordsB();
  }

  lemma RuOnesMWordsA()
    ensures RuToken("один") == Number(1, Masculine)
    ensures RuToken("два") == Number(2, Masculine)
    ensures RuToken("три") == Number(3, Any)
    ensures RuToken("четыре") == Number(4, Any)
    ensures RuToken("пять") == Number(5, Any)
  {
  }

  lemma RuOnesMWordsB()
    ensures RuToken("шесть") == Number(6, Any)
    ensures RuToken("семь") == Number(7, Any)
    ensures RuToken("восемь") == Number(8, Any)
    ensures RuToken("девять") == Number(9, Any)
  {
  }

  lemma RuOnesMValue(i: nat)
    requires 1 <= i <= 9
    ensures RuToken(RU_ONES_M[i]) == Number(i, if i <= 2 then Masculine else Any)
  {
    hide RuToken;
    RuOnesMWordsA();
    RuOnesMWordsB();
  }

  lemma RuOnesFWordsA()
    ensures RuToken("одна") == Number(1, Feminine)
    ensures RuToken("две") == Number(2, Feminine)
    ensures RuToken("три") == Number(3, Any)
    ensures RuToken("четыре") == Number(4, Any)
    ensures RuToken("пять") == Number(5, Any)
  {
  }

  lemma RuOnesFWordsB()
    ensures RuToken("шесть") == Number(6, Any)
    ensures RuToken("семь") == Number(7, Any)
    ensures RuToken("восемь") == Number(8, Any)
    ensures RuToken("девять") == Number(9, Any)
  {
  }

  lemma RuOnesFValue(i: nat)
    requires 1 <= i <= 9
    ensures RuToken(RU_ONES_F[i]) == Number(i, if i <= 2 then Feminine else Any)
  {
    hide RuToken;
    RuOnesFWordsA();
    RuOnesFWordsB();
  }

  lemma AzOnesWordsA()
    ensures AzToken("bir") == Number(1, Any)
    ensures AzToken("iki") == Number(2, Any)
    ensures AzToken("üç") == Number(3, Any)
    ensures AzToken("dörd") == Number(4, Any)
    ensures AzToken("beş") == Number(5, Any)
  {
  }

  lemma AzOnesWordsB()
    ensures AzToken("altı") == Number(6, Any)
    ensures AzToken("yeddi") == Number(7, Any)
    ensures AzToken("səkkiz") == Number(8, Any)
    ensures AzToken("doqquz") == Number(9, Any)
  {
  }

  lemma AzOnesValue(i: nat)
    requires 1 <= i <= 9
    ensures AzToken(AZ_ONES[i]) == Number(i, Any)
  {
    hide AzToken;
    AzOnesWordsA();
    AzOnesWordsB();
  }

  lemma AzTensWordsA()
    ensures AzToken("on") == Number(10, Any)
    ensures AzToken("iyirmi") == Number(20, Any)
    ensures AzToken("otuz") == Number(30, Any)
    ensures AzToken("qırx") == Number(40, Any)
    ensures AzToken("əlli") == Number(50, Any)
  {
  }

  lemma AzTensWordsB()
    ensures AzToken("altmış") == Number(60, Any)
    ensures AzToken("yetmiş") == Number(70, Any)
    ensures AzToken("səksən") == Number(80, Any)
    ensures AzToken("doxsan") == Number(90, Any)
  {
  }

  lemma AzTensValue(i: nat)
    requires 1 <= i <= 9
    ensures AzToken(AZ_TENS[i]) == Number(10 * i, Any)
  {
    hide AzToken;
    AzTensWordsA();
    AzTensWordsB();
  }

  lemma RuThousands()
    ensures RuToken("тысяча") == Scale(1, Single)
    ensures RuToken("тысячи") == Scale(1, Few)
    ensures RuToken("тысяч") == Scale(1, Many)
  {
  }

  lemma RuMillions()
    ensures RuToken("миллион") == Scale(2, Single)
    ensures RuToken("миллиона") == Scale(2, Few)
    ensures RuToken("миллионов") == Scale(2, Many)
  {
  }

  lemma RuMilliards()
    ensures RuToken("миллиард") == Scale(3, Single)
    ensures RuToken("миллиарда") == Scale(3, Few)
    ensures RuToken("миллиардов") == Scale(3, Many)
  {
  }

  /** Of the three forms, a number is given the one it asks for. */
  lemma PluralIsAsked(n: nat, one: string, few: string, many: string)
    ensures RuPlural(n, one, few, many) ==
            if Asks(n, Single) then one else if Asks(n, Few) then few else many
    ensures Asks(n, Many) <==> !Asks(n, Single) && !Asks(n, Few)
    ensures Asks(n, Plain)
  {
    LastDigits(n);
    var x := n % 100;
    assert x < 100 && n % 10 == x % 10;
    PluralOfDigits(x);
  }

  lemma PluralOfDigits(x: nat)
    requires x < 100
    ensures 11 <= x <= 19 || x % 10 !in {1, 2, 3, 4} <==> x % 10 !in {1, 2, 3, 4} || x in {11, 12, 13, 14}
  {
  }

  lemma LastDigits(n: nat)
    ensures n % 100 % 10 == n % 10 && n % 1000 % 100 == n % 100 && n % 1000 % 10 == n % 10
  {
    var x, y := n % 100, n % 1000;
    LastOne(n, 10 * (n / 100) + x / 10, x % 10);
    LastTwo(n, 10 * (n / 1000) + y / 100, y % 100);
    LastOne(n, 100 * (n / 1000) + y / 10, y % 10);
  }

  lemma LastOne(n: nat, q: nat, d: nat)
    requires n == 10 * q + d && d < 10
    ensures n % 10 == d
  {
  }

  lemma LastTwo(n: nat, q: nat, d: nat)
    requires n == 100 * q + d && d < 100
    ensures n % 100 == d
  {
  }

  lemma RuScaleValue(tri: nat, i: nat)
    requires 1 <= i
    ensures var t := RuToken(RuScale(tri, i));
            t.Scale? && t.e == (if i <= 3 then i else 3) && Asks(tri, t.form)
  {
    hide RuToken, RuPlural, Asks, IsWord;
    RuThousands();
    RuMillions();
    RuMilliards();
    PluralIsAsked(tri, "тысяча", "тысячи", "тысяч");
    PluralIsAsked(tri, "миллион", "миллиона", "миллионов");
    PluralIsAsked(tri, "миллиард", "миллиарда", "миллиардов");
  }

  lemma AzScaleValue(i: nat)
    requires 1 <= i <= 3
    ensures AzToken(AZ_SCALE[i]) == Scale(i, Plain)
    ensures AzToken("yüz") == Hundred && AzToken("min") == Scale(1, Plain)
  {
    assert AzToken("min") == Scale(1, Plain);
    assert AzToken("milyon") == Scale(2, Plain);
    assert AzToken("milyard") == Scale(3, Plain);
  }

  lemma RuUnits()
    ensures RuToken("манат") == Unit(Manats, Single)
    ensures RuToken("маната") == Unit(Manats, Few)
    ensures RuToken("манатов") == Unit(Manats, Many)
    ensures RuToken("копейка") == Unit(Kopeks, Single)
    ensures RuToken("копейки") == Unit(Kopeks, Few)
    ensures RuToken("копеек") == Unit(Kopeks, Many)
  {
  }

  lemma Zeros()
    ensures RuToken("ноль") == Number(0, Any) && AzToken("sıfır") == Number(0, Any)
    ensures AzToken("manat") == Unit(Manats, Plain) && AzToken("qəpik") == Unit(Kopeks, Plain)
  {
  }

  lemma UnitValues(lang: Lang, n: nat)
    ensures var t := TokenOf(lang, Manat(lang, n)); t.Unit? && t.noun == Manats && Asks(n, t.form)
    ensures var t := TokenOf(lang, Kopek(lang, n)); t.Unit? && t.noun == Kopeks && Asks(n, t.form)
    ensures TokenOf(lang, Zero(lang)) == Number(0, Any)
  {
    hide RuToken, AzToken, RuPlural, IsWord;
    RuUnits();
    Zeros();
    PluralIsAsked(n, "манат", "маната", "манатов");
    PluralIsAsked(n, "копейка", "копейки", "копеек");
  }

  // ----- Reading what was printed

  lemma {:induction false} ReadConcat(lang: Lang, r: Reading, xs: seq<string>, ys: seq<string>)
    ensures ReadAll(lang, r, xs + ys) == ReadAll(lang, ReadAll(lang, r, xs), ys)
    decreases |xs|
  {
    hide TokenOf, Read;
    if xs == [] {
      assert xs + ys == ys;
    } else {
      assert (xs + ys)[0] == xs[0] && (xs + ys)[1..] == xs[1..] + ys;
      ReadConcat(lang, Read(lang, r, TokenOf(lang, xs[0])), xs[1..], ys);
    }
  }

  lemma ReadOne(lang: Lang, r: Reading, w: string)
    ensures ReadAll(lang, r, [w]) == Read(lang, r, TokenOf(lang, w)) && ReadAll(lang, r, []) == r
  {
    hide TokenOf, Read;
    assert ReadAll(lang, Read(lang, r, TokenOf(lang, w)), []) == Read(lang, r, TokenOf(lang, w));
    assert [w][1..] == [];
  }

  /** Appending a word whose meaning is known. */
  lemma ReadMore(lang: Lang, r: Reading, xs: seq<string>, w: string, t: Token)
    requires TokenOf(lang, w) == t
    ensures ReadAll(lang, r, xs + [w]) == Read(lang, ReadAll(lang, r, xs), t)
  {
    hide TokenOf, ReadAll, Read;
    ReadConcat(lang, r, xs, [w]);
    ReadOne(lang, ReadAll(lang, r, xs), w);
  }

  /** The gender of the last word of a number: only one and two have one, but not in 11 and 12. */
  function LastGender(n: nat, feminine: bool): Gender {
    if n % 10 in {1, 2} && n % 100 !in {11, 12} then (if feminine then Feminine else Masculine) else Any
  }

  /** Tens and ones read on top of `r`: they add up, and are well formed if there is room for them. */
  predicate AddsRest(r: Reading, t: nat, o: nat, gender: Gender, r': Reading) {
    && r' == r.(cur := r.cur + 10 * t + o, style := r'.style)
    && (t == 0 && o == 0 ==> r' == r)
    && r'.style.scale == r.style.scale
    && (r.style.room >= 100 ==> r'.style.fits == r.style.fits)
    && (t > 0 || o > 0 ==> r'.style.room < 100 && r'.style.gender == gender)
  }

  lemma RuTeenReads(r: Reading, o: nat, feminine: bool)
    requires o <= 9
    ensures AddsRest(r, 1, o, LastGender(10 + o, feminine), ReadAll(Ru, r, [RU_TEENS[o]]))
  {
    hide IsWord, RuToken, ReadAll;
    RuTeensValue(o);
    ReadOne(Ru, r, RU_TEENS[o]);
  }

  lemma RuOneReads(r: Reading, o: nat, feminine: bool)
    requires 1 <= o <= 9
    ensures var w := (if feminine then RU_ONES_F else RU_ONES_M)[o];
            RuToken(w) == Number(o, LastGender(o, feminine))
  {
    hide IsWord, RuToken;
    RuOnesMValue(o);
    RuOnesFValue(o);
  }

  lemma RuRestReads(r: Reading, t: nat, o: nat, feminine: bool)
    requires t <= 9 && o <= 9
    ensures AddsRest(r, t, o, LastGender(10 * t + o, feminine), ReadAll(Ru, r, RuRest(t, o, feminine)))
  {
    hide IsWord, RuToken, ReadAll;
    if t == 1 {
      RuTeenReads(r, o, feminine);
    } else {
      ReadOne(Ru, r, "");
      var ts := if t > 0 then [RU_TENS[t]] else [];
      assert ts + [] == ts;
      assert LastGender(10 * t + o, feminine) == LastGender(o, feminine);
      hide LastGender;
      if t > 0 {
        RuTensValue(t);
        ReadOne(Ru, r, RU_TENS[t]);
      }
      if o > 0 {
        var w := (if feminine then RU_ONES_F else RU_ONES_M)[o];
        RuOneReads(r, o, feminine);
        ReadMore(Ru, r, ts, w, RuToken(w));
      } else {
        NoGender(feminine);
      }
    }
  }

  lemma NoGender(feminine: bool)
    ensures LastGender(0, feminine) == Any
  {
  }

  /** A group read from the start of a group: it is well formed. */
  predicate ReadsTriad(r: Reading, n: nat, gender: Gender, r': Reading) {
    && r' == r.(cur := n, style := r'.style)
    && r'.style.scale == r.style.scale && r'.style.gender == gender
    && (r.style.room == 1000 ==> r'.style.fits == r.style.fits && r'.style.room < 1000)
  }

  lemma LastGenderOfRest(n: nat, feminine: bool)
    requires n < 1000
    ensures LastGender(n, feminine) == LastGender(10 * (n % 100 / 10) + n % 10, feminine)
  {
    LastDigits(n);
    assert 10 * (n % 100 / 10) + n % 10 == n % 100;
  }

  /** Hundreds and then the rest make a group. */
  lemma TriadOfParts(r: Reading, mid: Reading, n: nat, gender: Gender, r': Reading)
    requires 0 < n < 1000 && r.cur == 0
    requires if n < 100 then mid == r else
               && mid == r.(cur := 100 * (n / 100), style := Style(mid.style.fits, 100, r.style.scale, Any))
               && (r.style.room == 1000 ==> mid.style.fits == r.style.fits)
    requires AddsRest(mid, n % 100 / 10, n % 10, gender, r')
    requires n % 100 == 0 ==> gender == Any
    ensures ReadsTriad(r, n, gender, r')
  {
    var h, t, o := n / 100, n % 100 / 10, n % 10;
    LastDigits(n);
    assert n == 100 * h + 10 * t + o;
  }

  lemma RuHundredsRead(r: Reading, h: nat)
    requires 1 <= h <= 9 && r.cur == 0
    ensures var r' := ReadAll(Ru, r, [RU_HUNDREDS[h]]);
            && r' == r.(cur := 100 * h, style := Style(r'.style.fits, 100, r.style.scale, Any))
            && (r.style.room == 1000 ==> r'.style.fits == r.style.fits)
  {
    hide IsWord, RuToken, ReadAll;
    RuHundredsValue(h);
    ReadOne(Ru, r, RU_HUNDREDS[h]);
  }

  lemma RuTriadReads(r: Reading, n: nat, feminine: bool)
    requires 0 < n < 1000 && r.cur == 0
    ensures ReadsTriad(r, n, LastGender(n, feminine), ReadAll(Ru, r, RuTriad(n, feminine)))
  {
    hide IsWord, RuToken, ReadAll, RuRest, LastGender, AddsRest, ReadsTriad, Read;
    var h, t, o := n / 100, n % 100 / 10, n % 10;
    var hs := if h > 0 then [RU_HUNDREDS[h]] else [];
    var mid := ReadAll(Ru, r, hs);
    LastGenderOfRest(n, feminine);
    if h > 0 { RuHundredsRead(r, h); } else { ReadOne(Ru, r, ""); }
    RuRestReads(mid, t, o, feminine);
    ReadConcat(Ru, r, hs, RuRest(t, o, feminine));
    NoGender(feminine);
    LastDigits(n);
    TriadOfParts(r, mid, n, LastGender(n, feminine), ReadAll(Ru, r, RuTriad(n, feminine)));
  }

  lemma AzHundredsRead(r: Reading, h: nat)
    requires h <= 9 && r.cur == 0
    ensures var r' := ReadAll(Az, r, AzHundreds(h));
            if h == 0 then r' == r
            else
              && r' == r.(cur := 100 * h, style := Style(r'.style.fits, 100, r.style.scale, Any))
              && (r.style.room == 1000 ==> r'.style.fits == r.style.fits)
  {
    hide IsWord, AzToken, ReadAll;
    AzScaleValue(1);
    ReadOne(Az, r, "yüz");
    if h > 1 {
      AzOnesValue(h);
      ReadOne(Az, r, AZ_ONES[h]);
      ReadMore(Az, r, [AZ_ONES[h]], "yüz", Hundred);
      assert [AZ_ONES[h]] + ["yüz"] == AzHundreds(h);
    }
  }

  lemma AzRestReads(r: Reading, t: nat, o: nat)
    requires t <= 9 && o <= 9
    ensures AddsRest(r, t, o, Any, ReadAll(Az, r, AzRest(t, o)))
  {
    hide IsWord, AzToken, ReadAll;
    ReadOne(Az, r, "");
    var ts := if t > 0 then [AZ_TENS[t]] else [];
    assert ts + [] == ts;
    if t > 0 {
      AzTensValue(t);
      ReadOne(Az, r, AZ_TENS[t]);
    }
    if o > 0 {
      AzOnesValue(o);
      ReadMore(Az, r, ts, AZ_ONES[o], Number(o, Any));
    }
  }

  lemma AzTriadReads(r: Reading, n: nat)
    requires 0 < n < 1000 && r.cur == 0
    ensures ReadsTriad(r, n, Any, ReadAll(Az, r, AzTriad(n)))
  {
    hide IsWord, AzToken, ReadAll, AzHundreds, AzRest, AddsRest, ReadsTriad, Read;
    var h, t, o := n / 100, n % 100 / 10, n % 10;
    var hs := AzHundreds(h);
    AzHundredsRead(r, h);
    AzRestReads(ReadAll(Az, r, hs), t, o);
    ReadConcat(Az, r, hs, AzRest(t, o));
    assert AzTriad(n) == hs + AzRest(t, o);
    TriadOfParts(r, ReadAll(Az, r, hs), n, Any, ReadAll(Az, r, AzTriad(n)));
  }

  /** Group `i` read below scale `i + 1`: its value is added and, below the end of the table, it is well formed. */
  predicate ReadsGroup(r: Reading, tri: nat, i: nat, gender: Gender, r': Reading) {
    && (if i == 0 then r' == r.(cur := tri, style := r'.style)
        else r' == r.(total := r.total + tri * Pow1000(i), style := r'.style))
    && (tri == 0 ==> r' == r)
    && (tri > 0 && r.style.room == 1000 && i < r.style.scale <= 4 ==> r'.style.fits == r.style.fits)
    && (tri > 0 && i > 0 ==> r'.style == Style(r'.style.fits, 1000, if i <= 3 then i else 3, Any))
    && (tri > 0 && i == 0 ==>
          && r'.style.scale == r.style.scale && r'.style.gender == gender
          && (r.style.room == 1000 ==> r'.style.room < 1000))
  }

  /** Past the table a Russian group is read with the last scale again. */
  lemma RuGroupReads(r: Reading, tri: nat, i: nat)
    requires tri < 1000 && r.cur == 0
    ensures ReadsGroup(r, tri, i, LastGender(tri, false), ReadAll(Ru, r, Group(Ru, tri, i)))
  {
    hide IsWord, RuToken, ReadAll, RuTriad, RuScale, LastGender;
    ReadOne(Ru, r, "");
    if tri > 0 {
      var words, mid := RuTriad(tri, i == 1), ReadAll(Ru, r, RuTriad(tri, i == 1));
      RuTriadReads(r, tri, i == 1);
      assert words + [] == words;
      if i > 0 {
        RuScaleValue(tri, i);
        SuitsItsScale(tri, i == 1);
        ReadMore(Ru, r, words, RuScale(tri, i), RuToken(RuScale(tri, i)));
      }
    }
  }

  lemma SuitsItsScale(tri: nat, feminine: bool)
    ensures Suits(LastGender(tri, feminine), feminine)
  {
  }

  lemma AzGroupReads(r: Reading, tri: nat, i: nat)
    requires tri < 1000 && r.cur == 0 && i <= 3
    ensures ReadsGroup(r, tri, i, Any, ReadAll(Az, r, Group(Az, tri, i)))
  {
    hide IsWord, AzToken, ReadAll, AzTriad;
    ReadOne(Az, r, "");
    if tri > 0 {
      AzTriadReads(r, tri);
      assert AzTriad(tri) + [] == AzTriad(tri);
      if i > 0 {
        AzScaleValue(i);
        ReadMore(Az, r, AzTriad(tri), AZ_SCALE[i], Scale(i, Plain));
        ReadOne(Az, r, "min");
      }
    }
  }

  function ValueBelow(units: seq<nat>, k: nat): nat
    requires k <= |units|
  {
    if k == 0 then 0 else units[k - 1] * Pow1000(k - 1) + ValueBelow(units, k - 1)
  }

  function LastGenderOf(lang: Lang, n: nat): Gender {
    if lang == Ru then LastGender(n, false) else Any
  }

  /** The `k` lowest groups read from the start of a number. */
  lemma {:induction false} GroupsRead(lang: Lang, r: Reading, units: seq<nat>, k: nat)
    requires k <= |units| && (lang == Ru || k <= 4) && forall i :: 0 <= i < |units| ==> units[i] < 1000
    requires r.cur == 0 && r.style.room == 1000 && r.style.scale <= 4
    decreases k
    ensures var r' := ReadAll(lang, r, GroupsBelow(lang, units, k));
            && r'.phrases == r.phrases && r'.total + r'.cur == r.total + ValueBelow(units, k)
            && (k <= r.style.scale ==> r'.style.fits == r.style.fits)
            && r'.style.scale <= 4
            && (r.style.scale < 4 || (k > 0 && units[k - 1] > 0) ==> r'.style.scale < 4 || r'.style.room < 1000)
            && (k > 0 && r.style.gender == Any ==> r'.style.gender == LastGenderOf(lang, units[0]))
  {
    hide ReadAll, Group;
    ReadOne(lang, r, "");
    if k > 0 {
      var i := k - 1;
      var r1 := ReadAll(lang, r, Group(lang, units[i], i));
      if lang == Ru { RuGroupReads(r, units[i], i); } else { AzGroupReads(r, units[i], i); }
      ReadConcat(lang, r, Group(lang, units[i], i), GroupsBelow(lang, units, i));
      if k > 1 {
        GroupsRead(lang, r1, units, i);
      } else {
        ReadOne(lang, r1, "");
      }
    }
  }

  lemma GroupArithmetic(n: nat)
    requires n < 1_000_000_000_000
    ensures var a, b, c := n / 1000, n / 1_000_000, n / 1_000_000_000;
            && a / 1000 == b && b / 1000 == c && c < 1000
            && n == n % 1000 + 1000 * (a % 1000) + 1_000_000 * (b % 1000) + 1_000_000_000 * c
  {
  }

  lemma ValueOfUnits(units: seq<nat>)
    requires 0 < |units| <= 4
    ensures ValueBelow(units, |units|) ==
            units[0] + (if |units| > 1 then 1000 * units[1] else 0)
            + (if |units| > 2 then 1_000_000 * units[2] else 0) + (if |units| > 3 then 1_000_000_000 * units[3] else 0)
  {
    assert ValueBelow(units, 0) == 0;
    assert ValueBelow(units, 1) == units[0];
    if |units| > 1 { assert ValueBelow(units, 2) == units[0] + 1000 * units[1]; }
    if |units| > 2 { assert ValueBelow(units, 3) == units[0] + 1000 * units[1] + 1_000_000 * units[2]; }
  }

  lemma TriadsValue(n: nat)
    requires n < 1_000_000_000_000
    ensures |Triads(n)| <= 4 && ValueBelow(Triads(n), |Triads(n)|) == n
  {
    hide ValueBelow;
    var a, b, c := n / 1000, n / 1_000_000, n / 1_000_000_000;
    GroupArithmetic(n);
    assert Triads(c) == [c];
    assert Triads(b) == if b < 1000 then [b] else [b % 1000] + Triads(c);
    assert Triads(a) == if a < 1000 then [a] else [a % 1000] + Triads(b);
    assert Triads(n) == if n < 1000 then [n] else [n % 1000] + Triads(a);
    ValueOfUnits(Triads(n));
  }

  lemma LastGenderOfTriads(lang: Lang, n: nat)
    ensures LastGenderOf(lang, Triads(n)[0]) == LastGenderOf(lang, n)
  {
    LastDigits(n);
    assert Triads(n)[0] == n % 1000;
    assert LastGender(n % 1000, false) == LastGender(n, false);
  }

  /** The words of a number below 10^12 read back as the number, are well formed, and end in the masculine. */
  lemma IntReads(lang: Lang, r: Reading, n: nat)
    requires n < 1_000_000_000_000 && r.total == 0 && r.cur == 0 && r.style == FRESH
    ensures var r' := ReadAll(lang, r, IntToWords(lang, n));
            && r'.phrases == r.phrases && r'.total + r'.cur == n
            && r'.style.fits && (r'.style.room < 1000 || r'.style.scale < 4)
            && r'.style.gender == LastGenderOf(lang, n)
  {
    hide IsWord, ReadAll, TokenOf, GroupsBelow, Triads;
    if n == 0 {
      UnitValues(lang, 0);
      ReadOne(lang, r, Zero(lang));
    } else {
      TriadsValue(n);
      TriadsWorth(n);
      LastGenderOfTriads(lang, n);
      GroupsRead(lang, r, Triads(n), |Triads(n)|);
    }
  }

  // ----- Past the table

  function Power(e: nat): (p: nat)
    ensures p > 0
  {
    if e == 0 then 1 else 1000 * Power(e - 1)
  }

  /** What the `k` lowest groups stand for. */
  function Worth(units: seq<nat>, k: nat): nat
    requires k <= |units|
  {
    if k == 0 then 0 else units[k - 1] * Power(k - 1) + Worth(units, k - 1)
  }

  lemma {:induction false} WorthOfMore(d: nat, units: seq<nat>, k: nat)
    requires k <= |units|
    ensures Worth([d] + units, k + 1) == d + 1000 * Worth(units, k)
  {
    var more := [d] + units;
    if k == 0 {
      assert Worth(more, 0) == 0;
    } else {
      WorthOfMore(d, units, k - 1);
      assert more[k] == units[k - 1];
      var u, p := units[k - 1], Power(k - 1);
      assert u * (1000 * p) == 1000 * (u * p);
    }
  }

  /** The groups are worth the number, the highest is not zero, and from 10^12 on there are five or more. */
  lemma {:induction false} TriadsWorth(n: nat)
    ensures Worth(Triads(n), |Triads(n)|) == n
    ensures n > 0 ==> Triads(n)[|Triads(n)| - 1] > 0
    ensures n < 1000 ==> |Triads(n)| == 1
    ensures n >= 1000 ==> |Triads(n)| == 1 + |Triads(n / 1000)|
  {
    if n >= 1000 {
      TriadsWorth(n / 1000);
      WorthOfMore(n % 1000, Triads(n / 1000), |Triads(n / 1000)|);
    } else {
      assert Worth([n], 0) == 0 && Power(0) == 1;
    }
  }

  lemma ManyTriads(n: nat)
    requires n >= 1_000_000_000_000
    ensures |Triads(n)| >= 5
  {
    hide Triads;
    var a := n / 1000;
    var b := a / 1000;
    var c := b / 1000;
    var d := c / 1000;
    TriadsWorth(n);
    TriadsWorth(a);
    TriadsWorth(b);
    TriadsWorth(c);
    TriadsWorth(d);
  }

  lemma {:induction false} CappedIsLess(i: nat)
    ensures i <= 3 ==> Pow1000(i) == Power(i)
    ensures i >= 4 ==> Pow1000(i) < Power(i)
  {
    if i == 4 {
      assert Power(0) == 1 && Power(1) == 1000 && Power(2) == 1_000_000 && Power(3) == 1_000_000_000;
    } else if i > 4 {
      CappedIsLess(i - 1);
    } else {
      assert Power(0) == 1 && Power(1) == 1000;
    }
  }

  lemma {:induction false} ValueIsLess(units: seq<nat>, k: nat)
    requires k <= |units|
    ensures ValueBelow(units, k) <= Worth(units, k)
    ensures k >= 5 && units[k - 1] > 0 ==> ValueBelow(units, k) < Worth(units, k)
  {
    if k > 0 {
      ValueIsLess(units, k - 1);
      CappedIsLess(k - 1);
      var u, p, q := units[k - 1], Pow1000(k - 1), Power(k - 1);
      Larger(u, p, q);
    }
  }

  lemma Larger(u: nat, p: nat, q: nat)
    requires p <= q
    ensures u * p <= u * q && (u > 0 && p < q ==> u * p < u * q)
  {
  }

  lemma AzHundredsUpTo(r: Reading, h: nat)
    requires h <= 9
    ensures var r' := ReadAll(Az, r, AzHundreds(h));
            && r' == r.(cur := r'.cur, style := r'.style) && r'.cur <= 100 * r.cur + 100 * h && (h > 0 ==> r'.cur > 0)
            && (h == 0 ==> r'.cur == r.cur)
  {
    hide IsWord, AzToken, ReadAll;
    AzScaleValue(1);
    ReadOne(Az, r, "yüz");
    if h > 1 {
      AzOnesValue(h);
      ReadOne(Az, r, AZ_ONES[h]);
      ReadMore(Az, r, [AZ_ONES[h]], "yüz", Hundred);
      assert [AZ_ONES[h]] + ["yüz"] == AzHundreds(h);
    }
  }

  /** A group read on top of one that had no scale word counts that one for less than a thousand. */
  lemma AzTriadUpTo(r: Reading, n: nat)
    requires 0 < n < 1000
    ensures var r' := ReadAll(Az, r, AzTriad(n));
            r' == r.(cur := r'.cur, style := r'.style) && 0 < r'.cur <= 100 * r.cur + n
  {
    hide IsWord, AzToken, ReadAll, AzHundreds, AzRest;
    var h, t, o := n / 100, n % 100 / 10, n % 10;
    var hs := AzHundreds(h);
    AzHundredsUpTo(r, h);
    AzRestReads(ReadAll(Az, r, hs), t, o);
    ReadConcat(Az, r, hs, AzRest(t, o));
    assert AzTriad(n) == hs + AzRest(t, o);
  }

  lemma AzGroupUpTo(r: Reading, tri: nat, i: nat) returns (c: nat)
    requires 0 < tri < 1000
    ensures 0 < c <= 100 * r.cur + tri
    ensures var r' := ReadAll(Az, r, Group(Az, tri, i));
            if 1 <= i <= 3 then r' == r.(total := r.total + c * Pow1000(i), cur := 0, style := r'.style)
            else r' == r.(cur := c, style := r'.style)
  {
    hide IsWord, AzToken, ReadAll, AzTriad;
    AzTriadUpTo(r, tri);
    assert AzTriad(tri) + [] == AzTriad(tri);
    var mid := ReadAll(Az, r, AzTriad(tri));
    c := mid.cur;
    if 1 <= i <= 3 {
      AzScaleValue(i);
      ReadMore(Az, r, AzTriad(tri), AZ_SCALE[i], Scale(i, Plain));
      if i == 1 && tri == 1 {
        ReadOne(Az, r, "min");
        c := if r.cur == 0 then 1 else r.cur;
      }
    }
  }

  lemma LessThanAThousand(c: nat, cur: nat, u: nat, p: nat)
    requires c <= 100 * cur + u && p > 0
    ensures c * p <= cur * (1000 * p) + u * p
    ensures cur > 0 ==> c * p < cur * (1000 * p) + u * p
  {
    Larger(p, c, 100 * cur + u);
    assert (100 * cur + u) * p == 100 * (cur * p) + u * p;
    assert cur * (1000 * p) == 1000 * (cur * p);
    if cur > 0 {
      Larger(cur, 0, p);
    }
  }

  lemma {:induction false} AzGroupsReadLess(r: Reading, units: seq<nat>, k: nat)
    requires k <= |units| && forall i :: 0 <= i < |units| ==> units[i] < 1000
    ensures var r' := ReadAll(Az, r, GroupsBelow(Az, units, k));
            && r'.phrases == r.phrases && r'.total + r'.cur <= r.total + r.cur * Power(k) + Worth(units, k)
            && ((r.cur > 0 && k > 0) || (k >= 5 && units[k - 1] > 0) ==>
                  r'.total + r'.cur < r.total + r.cur * Power(k) + Worth(units, k))
    decreases k
  {
    hide ReadAll, Group, Pow1000;
    ReadOne(Az, r, "");
    if k > 0 {
      var i, u := k - 1, units[k - 1];
      var p := Power(i);
      var words, rest := Group(Az, u, i), GroupsBelow(Az, units, i);
      ReadConcat(Az, r, words, rest);
      if u == 0 {
        EmptyGroup(i);
        assert words + rest == rest;
        AzGroupsReadLess(r, units, i);
        LessThanAThousand(r.cur, r.cur, 0, p);
      } else {
        var c := AzGroupUpTo(r, u, i);
        LessThanAThousand(c, r.cur, u, p);
        CappedIsLess(i);
        AzGroupsReadLess(ReadAll(Az, r, words), units, i);
      }
    }
  }

  lemma EmptyGroup(i: nat)
    ensures Group(Az, 0, i) == []
  {
  }

  /** From 10^12 on the words read as a smaller number. */
  lemma IntReadsLess(lang: Lang, r: Reading, n: nat)
    requires n >= 1_000_000_000_000 && r.total == 0 && r.cur == 0 && r.style == FRESH
    ensures var r' := ReadAll(lang, r, IntToWords(lang, n));
            r'.phrases == r.phrases && r'.total + r'.cur < n
  {
    hide ReadAll, GroupsBelow, Triads, Worth, ValueBelow, Power;
    var units := Triads(n);
    TriadsWorth(n);
    ManyTriads(n);
    if lang == Ru {
      GroupsRead(Ru, r, units, |units|);
      ValueIsLess(units, |units|);
    } else {
      AzGroupsReadLess(r, units, |units|);
    }
  }

  /** The numerals are masculine, and "копейка" is not. */
  predicate KopeksAgree(lang: Lang, n: nat) {
    lang == Az || n % 10 !in {1, 2} || n % 100 in {11, 12}
  }

  /** The unit after a number. */
  lemma ReadUnit(lang: Lang, r: Reading, w: string, noun: Noun)
    requires TokenOf(lang, w).Unit? && TokenOf(lang, w).noun == noun
    ensures var r' := ReadAll(lang, r, [w]);
            && |r'.phrases| == |r.phrases| + 1 && r' == Reading(r.phrases + [r'.phrases[|r.phrases|]], 0, 0, FRESH)
            && var p := r'.phrases[|r.phrases|];
               && p.number == r.total + r.cur && p.noun == noun && p.agrees == Suits(r.style.gender, noun == Kopeks)
               && p.wellFormed == (r.style.fits && Fits(lang, r, TokenOf(lang, w)))
  {
    hide TokenOf, ReadAll, Asks;
    ReadOne(lang, r, w);
  }

  lemma KopeksRead(lang: Lang, r: Reading, n: nat)
    requires n < 1_000_000_000_000 && r.total == 0 && r.cur == 0 && r.style == FRESH
    ensures ReadAll(lang, r, IntToWords(lang, n) + [Kopek(lang, n)]).phrases ==
            r.phrases + [Phrase(n, Kopeks, true, KopeksAgree(lang, n))]
  {
    hide IsWord, ReadAll, TokenOf, IntToWords, Asks;
    IntReads(lang, r, n);
    UnitValues(lang, n);
    ReadConcat(lang, r, IntToWords(lang, n), [Kopek(lang, n)]);
    ReadUnit(lang, ReadAll(lang, r, IntToWords(lang, n)), Kopek(lang, n), Kopeks);
  }

  lemma ManatsRead(lang: Lang, n: nat) returns (p: Phrase)
    ensures ReadAll(lang, START, IntToWords(lang, n) + [Manat(lang, n)]) == Reading([p], 0, 0, FRESH)
    ensures n < 1_000_000_000_000 ==> p == Phrase(n, Manats, true, true)
    ensures n >= 1_000_000_000_000 ==> p.number < n
  {
    hide IsWord, ReadAll, TokenOf, IntToWords, Asks;
    if n < 1_000_000_000_000 {
      IntReads(lang, START, n);
    } else {
      IntReadsLess(lang, START, n);
    }
    UnitValues(lang, n);
    var r := ReadAll(lang, START, IntToWords(lang, n));
    ReadConcat(lang, START, IntToWords(lang, n), [Manat(lang, n)]);
    ReadUnit(lang, r, Manat(lang, n), Manats);
    p := ReadAll(lang, r, [Manat(lang, n)]).phrases[0];
    assert [] + [p] == [p];
  }

  /** An amount reads as its kopeks after a number of manats, the right one exactly below 10^12. */
  lemma AmountReads(lang: Lang, intPart: nat, fracPart: nat) returns (p: Phrase)
    requires fracPart < 1_000_000_000_000
    ensures ReadAll(lang, START, AmountWords(lang, intPart, fracPart)).phrases ==
            [p, Phrase(fracPart, Kopeks, true, KopeksAgree(lang, fracPart))]
    ensures p == Phrase(intPart, Manats, true, true) <==> intPart < 1_000_000_000_000
  {
    hide IsWord, ReadAll, TokenOf, IntToWords, KopeksAgree;
    p := ManatsRead(lang, intPart);
    var xs := IntToWords(lang, intPart) + [Manat(lang, intPart)];
    var ys := IntToWords(lang, fracPart) + [Kopek(lang, fracPart)];
    KopeksRead(lang, Reading([p], 0, 0, FRESH), fracPart);
    ReadConcat(lang, START, xs, ys);
    assert AmountWords(lang, intPart, fracPart) == xs + ys;
    assert [p] + [Phrase(fracPart, Kopeks, true, KopeksAgree(lang, fracPart))] ==
           [p, Phrase(fracPart, Kopeks, true, KopeksAgree(lang, fracPart))];
  }

  // ----- Joining and splitting

  predicate AllWords(words: seq<string>) {
    forall i :: 0 <= i < |words| ==> IsWord(words[i])
  }

  lemma {:induction false} SplitWord(word: string, w: string, rest: string)
    requires forall i :: 0 <= i < |w| ==> w[i] != ' '
    ensures Split(word, w + rest) == Split(word + w, rest)
    decreases |w|
  {
    if w == "" {
      assert w + rest == rest && word + w == word;
    } else {
      assert (w + rest)[0] == w[0] && (w + rest)[1..] == w[1..] + rest;
      SplitWord(word + [w[0]], w[1..], rest);
      assert word + [w[0]] + w[1..] == word + w;
    }
  }

  /** Splitting at the spaces undoes joining. */
  lemma {:induction false} SplitJoin(words: seq<string>)
    requires words != [] && AllWords(words)
    ensures Split("", Join(words)) == words
    decreases |words|
  {
    hide Upper, Lower;
    var w := words[0];
    assert "" + w == w;
    if |words| == 1 {
      SplitWord("", w, "");
      assert w + "" == w;
    } else {
      var rest := Join(words[1..]);
      SplitWord("", w, " " + rest);
      assert w + " " + rest == w + (" " + rest);
      assert (" " + rest)[1..] == rest;
      SplitJoin(words[1..]);
    }
  }

  lemma {:induction false} JoinStarts(words: seq<string>)
    requires words != [] && AllWords(words)
    ensures Join(words) != "" && Join(words)[0] == words[0][0]
  {
  }

  /** Every word of an amount is one the decoder knows. */
  lemma RuTriadWords(n: nat, feminine: bool)
    requires n < 1000
    ensures AllWords(RuTriad(n, feminine))
  {
    hide RuToken, IsWord;
    var h, t, o := n / 100, n % 100 / 10, n % 10;
    if h > 0 { RuHundredsValue(h); }
    if t == 1 { RuTeensValue(o); }
    if t > 1 { RuTensValue(t); }
    if o > 0 { RuOnesMValue(o); RuOnesFValue(o); }
  }

  lemma AzTriadWords(n: nat)
    requires n < 1000
    ensures AllWords(AzTriad(n))
  {
    hide AzToken, IsWord;
    var h, t, o := n / 100, n % 100 / 10, n % 10;
    AzScaleValue(1);
    if h > 1 { AzOnesValue(h); }
    if t > 0 { AzTensValue(t); }
    if o > 0 { AzOnesValue(o); }
  }

  lemma GroupWords(lang: Lang, tri: nat, i: nat)
    requires tri < 1000
    ensures AllWords(Group(lang, tri, i))
  {
    hide RuToken, AzToken, IsWord, RuTriad, AzTriad, RuScale;
    RuTriadWords(tri, i == 1);
    AzTriadWords(tri);
    AzScaleValue(1);
    if i > 0 {
      RuScaleValue(tri, i);
      if i <= 3 {
        AzScaleValue(i);
      }
    }
  }

  lemma {:induction false} GroupsWords(lang: Lang, units: seq<nat>, k: nat)
    requires k <= |units| && forall i :: 0 <= i < |units| ==> units[i] < 1000
    ensures AllWords(GroupsBelow(lang, units, k))
  {
    hide IsWord, Group;
    if k > 0 {
      GroupWords(lang, units[k - 1], k - 1);
      GroupsWords(lang, units, k - 1);
    }
  }

  lemma AmountIsWords(lang: Lang, intPart: nat, fracPart: nat)
    ensures AllWords(AmountWords(lang, intPart, fracPart))
  {
    hide IsWord, TokenOf, GroupsBelow;
    UnitValues(lang, intPart);
    UnitValues(lang, fracPart);
    GroupsWords(lang, Triads(intPart), |Triads(intPart)|);
    GroupsWords(lang, Triads(fracPart), |Triads(fracPart)|);
  }

  // ----- The laws

  /** In both languages the printed text reads back as the whole manats and then the kopeks exactly when there are less
      than 10^12 manats: the numbers with their nouns, in the order of the grammar, each noun and scale word in the form
      its number asks for. The gender is right but for kopeks that end in one or two in Russian, which are printed
      with the masculine numeral: "один копейка". */
  lemma AmountRoundTrip(lang: Lang, intPart: nat, fracPart: nat)
    requires fracPart < 100
    ensures Decode(lang, AmountToWords(lang, intPart, fracPart)) ==
            [Phrase(intPart, Manats, true, true), Phrase(fracPart, Kopeks, true, KopeksAgree(lang, fracPart))] <==>
            intPart < 1_000_000_000_000
  {
    hide ReadAll, AmountWords, Split, Join, CapFirst, UncapFirst, KopeksAgree;
    TextReadsAsWords(lang, intPart, fracPart);
    var p := AmountReads(lang, intPart, fracPart);
    var kopeks := Phrase(fracPart, Kopeks, true, KopeksAgree(lang, fracPart));
    var manats := Phrase(intPart, Manats, true, true);
    assert [p, kopeks][0] == p && [manats, kopeks][0] == manats;
  }

  /** The text starts with a capital; without it, it is the words with one space between them. */
  lemma TextReadsAsWords(lang: Lang, intPart: nat, fracPart: nat)
    ensures Split("", UncapFirst(AmountToWords(lang, intPart, fracPart))) == AmountWords(lang, intPart, fracPart)
    ensures var text := AmountToWords(lang, intPart, fracPart); text != "" && IsCapital(text[0])
  {
    hide IsWord, Upper, Lower;
    var words := AmountWords(lang, intPart, fracPart);
    var text := Join(words);
    AmountIsWords(lang, intPart, fracPart);
    JoinStarts(words);
    FirstLetter(words[0]);
    assert UncapFirst(CapFirst(text)) == text;
    SplitJoin(words);
  }

  lemma FirstLetter(w: string)
    requires IsWord(w)
    ensures w != "" && IsCapital(Upper(w[0])) && Lower(Upper(w[0])) == w[0]
  {
  }

  /** So the text determines the amount. */
  lemma AmountIsInjective(lang: Lang, i: nat, f: nat, i': nat, f': nat)
    requires i < 1_000_000_000_000 && f < 100 && i' < 1_000_000_000_000 && f' < 100
    requires AmountToWords(lang, i, f) == AmountToWords(lang, i', f')
    ensures i == i' && f == f'
  {
    hide Decode, AmountToWords, KopeksAgree;
    AmountRoundTrip(lang, i, f);
    AmountRoundTrip(lang, i', f');
    var phrases := Decode(lang, AmountToWords(lang, i, f));
    assert phrases[0].number == i == i' && phrases[1].number == f == f';
  }

  lemma GroupsOfPower(lang: Lang, units: seq<nat>, k: nat)
    requires 0 < k <= |units| && (forall i :: 0 <= i < |units| ==> units[i] < 1000)
    requires forall i :: 0 <= i < k - 1 ==> units[i] == 0
    ensures GroupsBelow(lang, units, k) == Group(lang, units[k - 1], k - 1)
  {
    if k == 1 {
      assert Group(lang, units[0], 0) + [] == Group(lang, units[0], 0);
    } else {
      NoGroups(lang, units, k - 1);
      assert Group(lang, units[k - 1], k - 1) + [] == Group(lang, units[k - 1], k - 1);
    }
  }

  lemma {:induction false} NoGroups(lang: Lang, units: seq<nat>, k: nat)
    requires k <= |units| && (forall i :: 0 <= i < |units| ==> units[i] < 1000)
    requires forall i :: 0 <= i < k ==> units[i] == 0
    ensures GroupsBelow(lang, units, k) == []
  {
    if k > 0 {
      NoGroups(lang, units, k - 1);
    }
  }

  /** At the bound two amounts have the same text: Azerbaijani has no word past "milyard" and prints 10^12 as 1,
      Russian repeats its last scale and prints 10^12 as 10^9. */
  lemma BoundIsTight()
    ensures IntToWords(Az, 1_000_000_000_000) == IntToWords(Az, 1)
    ensures IntToWords(Ru, 1_000_000_000_000) == IntToWords(Ru, 1_000_000_000)
  {
    hide AzTriad, RuTriad, RuPlural, Triads, GroupsBelow;
    TriadsOfPowers();
    GroupsOfPower(Az, [1], 1);
    GroupsOfPower(Az, [0, 0, 0, 0, 1], 5);
    GroupsOfPower(Ru, [0, 0, 0, 1], 4);
    GroupsOfPower(Ru, [0, 0, 0, 0, 1], 5);
    assert AzTriad(1) + [] == AzTriad(1);
  }

  lemma TriadsOfPowers()
    ensures Triads(1) == [1] && Triads(1_000_000_000) == [0, 0, 0, 1] && Triads(1_000_000_000_000) == [0, 0, 0, 0, 1]
  {
    assert Triads(1_000) == [0, 1];
    assert Triads(1_000_000) == [0, 0, 1];
  }

  // ----- The loops

  /** `triads` */
  method ComputeTriads(num: nat) returns (out: seq<nat>)
    ensures out == Triads(num)
  {
    out := [];
    var n := num;
    if n == 0 {
      return [0];
    }
    assert [] + Triads(num) == Triads(num);
    while n > 0
      invariant Triads(num) == if n > 0 then out + Triads(n) else out
    {
      assert n >= 1000 ==> out + ([n % 1000] + Triads(n / 1000)) == out + [n % 1000] + Triads(n / 1000);
      out := out + [n % 1000];
      n := n / 1000;
    }
  }

  lemma GroupsStep(lang: Lang, parts: seq<string>, units: seq<nat>, k: nat)
    requires 0 < k <= |units| && forall i :: 0 <= i < |units| ==> units[i] < 1000
    ensures parts + GroupsBelow(lang, units, k) ==
            parts + Group(lang, units[k - 1], k - 1) + GroupsBelow(lang, units, k - 1)
  {
    hide Group;
    var high, low := Group(lang, units[k - 1], k - 1), GroupsBelow(lang, units, k - 1);
    assert parts + (high + low) == parts + high + low;
  }

  /** `azIntToWords` and `ruIntToWords`: the groups from the highest to the lowest. */
  method ComputeIntToWords(lang: Lang, n: nat) returns (parts: seq<string>)
    ensures parts == IntToWords(lang, n)
  {
    hide Group, GroupsBelow, Triads;
    if n == 0 {
      return [Zero(lang)];
    }
    var units := ComputeTriads(n);
    parts := [];
    var i := |units|;
    assert [] + GroupsBelow(lang, units, i) == GroupsBelow(lang, units, i);
    while i > 0
      invariant 0 <= i <= |units|
      invariant parts + GroupsBelow(lang, units, i) == IntToWords(lang, n)
    {
      GroupsStep(lang, parts, units, i);
      i := i - 1;
      parts := parts + Group(lang, units[i], i);
    }
    NoGroups(lang, units, 0);
    assert parts + [] == parts;
  }
}
