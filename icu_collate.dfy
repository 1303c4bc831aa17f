/** The ICU collation helpers: turning a collator's sort key into upper-case
    hexadecimal text, the grow-only scratch buffer the sort keys are written
    into, the bind rules that recover a locale from a collation name, the
    copy of the bound data, and the construction of one collation name per
    available locale.

    The collator itself is foreign: its sort-key rule is a parameter
    `sortKey` from the input text to the key bytes, terminator included, and
    whether ICU can create a collator for a locale is a parameter
    `canCreate`. */
module IcuCollate {
  import opened Results
  import opened StringUtil

  newtype byte = x: int | 0 <= x < 256

  const HexTable: string := "0123456789ABCDEF"

  /** A key as ICU returns it: at least the terminating zero byte, and no
      zero byte before it. */
  predicate WellFormedKey(key: seq<byte>)
  {
    |key| >= 1 && key[|key| - 1] == 0 && forall i :: 0 <= i < |key| - 1 ==> key[i] != 0
  }

  function HexHigh(b: byte): char
  {
    HexTable[b as int / 16]
  }

  function HexLow(b: byte): char
  {
    HexTable[b as int % 16]
  }

  /** Two hexadecimal digits per key byte, high nibble first. */
  function HexString(key: seq<byte>): (s: string)
    ensures |s| == 2 * |key|
  {
    if key == [] then []
    else [HexHigh(key[0]), HexLow(key[0])] + HexString(key[1..])
  }

  /** Byte `i` of the key is written at places `2 * i` (high nibble) and
      `2 * i + 1` (low nibble). */
  lemma {:induction false} HexStringPositions(key: seq<byte>)
    ensures forall i :: 0 <= i < |key| ==>
      HexString(key)[2 * i] == HexHigh(key[i]) && HexString(key)[2 * i + 1] == HexLow(key[i])
  {
    if key != [] {
      HexStringPositions(key[1..]);
      var s := HexString(key);
      assert s == [HexHigh(key[0]), HexLow(key[0])] + HexString(key[1..]);
      forall i | 1 <= i < |key|
        ensures s[2 * i] == HexHigh(key[i]) && s[2 * i + 1] == HexLow(key[i])
      {
        assert key[1..][i - 1] == key[i];
        assert s[2 * i] == HexString(key[1..])[2 * (i - 1)];
        assert s[2 * i + 1] == HexString(key[1..])[2 * (i - 1) + 1];
      }
    }
  }

  function HexDigitValue(c: char): Option<int>
  {
    if '0' <= c <= '9' then Some(c as int - '0' as int)
    else if 'A' <= c <= 'F' then Some(c as int - 'A' as int + 10)
    else None
  }

  /** Reads pairs of hexadecimal digits back into bytes; `None` for text of
      odd length or with a character outside `0-9A-F`. */
  function HexDecode(s: string): Option<seq<byte>>
  {
    if s == [] then Some([])
    else if |s| == 1 then None
    else match (HexDigitValue(s[0]), HexDigitValue(s[1]), HexDecode(s[2..]))
      case (Some(hi), Some(lo), Some(rest)) =>
        if 0 <= hi * 16 + lo < 256 then Some([(hi * 16 + lo) as byte] + rest) else None
      case _ => None
  }

  /** Both digits of a byte are table digits whose values give the byte
      back. */
  lemma HexPairDecodes(b: byte)
    ensures HexHigh(b) in HexTable && HexLow(b) in HexTable
    ensures HexDigitValue(HexHigh(b)) == Some(b as int / 16)
    ensures HexDigitValue(HexLow(b)) == Some(b as int % 16)
    ensures (b as int / 16) * 16 + b as int % 16 == b as int
  {
    HexDigitDecodes(b as int / 16);
    HexDigitDecodes(b as int % 16);
  }

  /** The table digit of value `d` reads back as `d`. */
  lemma HexDigitDecodes(d: int)
    requires 0 <= d < 16
    ensures HexTable[d] in HexTable && HexDigitValue(HexTable[d]) == Some(d)
  {
  }

  /** Every character of the hexadecimal text is one of `0-9A-F`. */
  lemma {:induction false} HexStringDigits(key: seq<byte>)
    ensures forall j :: 0 <= j < |HexString(key)| ==> HexString(key)[j] in HexTable
  {
    if key != [] {
      HexPairDecodes(key[0]);
      HexStringDigits(key[1..]);
    }
  }

  /** The two digits of a byte in front of a text that decodes decode to
      that byte in front. */
  lemma HexDecodePair(b: byte, t: string, rest: seq<byte>)
    requires HexDecode(t) == Some(rest)
    ensures HexDecode([HexHigh(b), HexLow(b)] + t) == Some([b] + rest)
  {
    HexPairDecodes(b);
    HexDecodeCons(HexHigh(b), HexLow(b), t, b as int / 16, b as int % 16, rest);
  }

  /** Two digits in front of a text that decodes add their byte in front. */
  lemma HexDecodeCons(c0: char, c1: char, t: string, hi: int, lo: int, rest: seq<byte>)
    requires HexDigitValue(c0) == Some(hi) && HexDigitValue(c1) == Some(lo)
    requires 0 <= hi * 16 + lo < 256 && HexDecode(t) == Some(rest)
    ensures HexDecode([c0, c1] + t) == Some([(hi * 16 + lo) as byte] + rest)
  {
    var s := [c0, c1] + t;
    assert s[0] == c0 && s[1] == c1 && s[2..] == t;
  }

  /** Decoding the hexadecimal text recovers the key bytes. */
  lemma {:induction false} HexRoundTrip(key: seq<byte>)
    ensures HexDecode(HexString(key)) == Some(key)
  {
    if key != [] {
      assert HexString(key) == [HexHigh(key[0]), HexLow(key[0])] + HexString(key[1..]);
      HexRoundTrip(key[1..]);
      HexDecodePair(key[0], HexString(key[1..]), key[1..]);
      assert [key[0]] + key[1..] == key;
    }
  }

  /** A text that holds the two digits of every key byte at their places is
      the key's hexadecimal text. */
  lemma {:induction false} HexStringEq(s: string, key: seq<byte>)
    requires |s| == 2 * |key|
    requires forall k :: 0 <= k < |key| ==> s[2 * k] == HexHigh(key[k]) && s[2 * k + 1] == HexLow(key[k])
    ensures s == HexString(key)
  {
    if key != [] {
      forall k | 0 <= k < |key| - 1
        ensures s[2..][2 * k] == HexHigh(key[1..][k]) && s[2..][2 * k + 1] == HexLow(key[1..][k])
      {
        assert s[2 * (k + 1)] == HexHigh(key[k + 1]);
        assert s[2 * (k + 1) + 1] == HexLow(key[k + 1]);
      }
      HexStringEq(s[2..], key[1..]);
      assert s == [s[0], s[1]] + s[2..];
    }
  }

  /** The encoding loop of the collate function: fills a fresh string of
      `2 * (stringSize - 1)` characters from the first `stringSize - 1`
      bytes of the buffer (the terminator is not encoded). */
  method EncodeSortKey(buffer: array<byte>, stringSize: int) returns (str: array<char>)
    requires 1 <= stringSize <= buffer.Length
    requires forall i :: 0 <= i < stringSize - 1 ==> buffer[i] != 0
    ensures fresh(str) && str.Length == 2 * (stringSize - 1)
    ensures str[..] == HexString(buffer[..stringSize - 1])
  {
    str := new char[(stringSize - 1) * 2];
    ghost var key := buffer[..stringSize - 1];
    for i := 0 to stringSize - 1
      invariant forall k :: 0 <= k < i ==> str[2 * k] == HexHigh(key[k]) && str[2 * k + 1] == HexLow(key[k])
    {
      var b := buffer[i];
      str[i * 2] := HexTable[b as int / 16];
      str[i * 2 + 1] := HexTable[b as int % 16];
    }
    HexStringEq(str[..], key);
  }

  /** ICU's `getSortKey` into a caller buffer: writes as much of the key as
      fits and returns the key's full length. */
  method WriteSortKey(key: seq<byte>, dest: array<byte>) returns (n: int)
    modifies dest
    ensures n == |key|
    ensures |key| <= dest.Length ==> dest[..|key|] == key
    ensures |key| <= dest.Length ==> dest[|key|..] == old(dest[|key|..])
  {
    if |key| <= dest.Length {
      forall i | 0 <= i < |key| {
        dest[i] := key[i];
      }
    }
    n := |key|;
  }

  /** The scratch buffer of one collate call, reused across its rows; it
      starts empty and only ever grows. */
  class SortKeyBuffer {
    var buffer: array<byte>
    var bufferSize: int

    ghost predicate Valid()
      reads this
    {
      bufferSize == buffer.Length
    }

    constructor ()
      ensures Valid() && bufferSize == 0 && fresh(buffer)
    {
      buffer := new byte[0];
      bufferSize := 0;
    }

    /** Writes the key of `input` into the buffer, replacing the buffer by
        one of exactly the key's size when the key does not fit. */
    method GetSortKey(sortKey: string -> seq<byte>, input: string) returns (stringSize: int)
      requires Valid()
      modifies this, buffer
      ensures Valid()
      ensures stringSize == |sortKey(input)|
      ensures stringSize > old(bufferSize) ==> bufferSize == stringSize && fresh(buffer)
      ensures stringSize <= old(bufferSize) ==> bufferSize == old(bufferSize) && buffer == old(buffer)
      ensures buffer[..stringSize] == sortKey(input)
    {
      stringSize := WriteSortKey(sortKey(input), buffer);
      if stringSize > bufferSize {
        bufferSize := stringSize;
        buffer := new byte[bufferSize];
        stringSize := WriteSortKey(sortKey(input), buffer);
      }
    }
  }

  /** The encoded part of a key: every byte before the terminator. */
  function KeyBody(key: seq<byte>): seq<byte>
  {
    if key == [] then [] else key[..|key| - 1]
  }

  /** One non-NULL row of the collate function: the sort key into the
      scratch buffer, then its encoded part into fresh text. */
  method CollateRow(scratch: SortKeyBuffer, sortKey: string -> seq<byte>, input: string) returns (text: string)
    requires scratch.Valid() && WellFormedKey(sortKey(input))
    modifies scratch, scratch.buffer
    ensures scratch.Valid()
    ensures scratch.buffer == old(scratch.buffer) || fresh(scratch.buffer)
    ensures text == HexString(KeyBody(sortKey(input)))
  {
    var stringSize := scratch.GetSortKey(sortKey, input);
    ghost var key := sortKey(input);
    assert scratch.buffer[..stringSize - 1] == key[..stringSize - 1];
    var str := EncodeSortKey(scratch.buffer, stringSize);
    text := str[..];
  }

  /** One row of the collate function: NULL stays NULL, any other string
      becomes the hexadecimal text of its sort key without the
      terminator. */
  function CollatedRow(sortKey: string -> seq<byte>, input: Option<string>): Option<string>
  {
    match input
    case None => None
    case Some(x) => Some(HexString(KeyBody(sortKey(x))))
  }

  /** The collate function applied to a column, row by row. */
  function Collated(sortKey: string -> seq<byte>, inputs: seq<Option<string>>): seq<Option<string>>
  {
    if inputs == [] then []
    else Collated(sortKey, inputs[..|inputs| - 1]) + [CollatedRow(sortKey, inputs[|inputs| - 1])]
  }

  /** Every row of the collated column is the collate function of the
      input row at the same place. */
  lemma {:induction false} CollatedRows(sortKey: string -> seq<byte>, inputs: seq<Option<string>>)
    ensures |Collated(sortKey, inputs)| == |inputs|
    ensures forall i :: 0 <= i < |inputs| ==> Collated(sortKey, inputs)[i] == CollatedRow(sortKey, inputs[i])
  {
    if inputs != [] {
      var n := |inputs| - 1;
      CollatedRows(sortKey, inputs[..n]);
      var c := Collated(sortKey, inputs);
      assert c == Collated(sortKey, inputs[..n]) + [CollatedRow(sortKey, inputs[n])];
      forall i | 0 <= i < |inputs|
        ensures c[i] == CollatedRow(sortKey, inputs[i])
      {
        if i < n {
          assert inputs[..n][i] == inputs[i];
        }
      }
    }
  }

  /** A row keeps its NULL-ness, and a non-NULL row is text of `0-9A-F`
      digits from which the key body decodes again. */
  lemma CollatedRowDecodes(sortKey: string -> seq<byte>, input: Option<string>)
    ensures CollatedRow(sortKey, input).Some? == input.Some?
    ensures input.Some? ==>
      (forall j :: 0 <= j < |CollatedRow(sortKey, input).value| ==> CollatedRow(sortKey, input).value[j] in HexTable) &&
      HexDecode(CollatedRow(sortKey, input).value) == Some(KeyBody(sortKey(input.value)))
  {
    if input.Some? {
      HexStringDigits(KeyBody(sortKey(input.value)));
      HexRoundTrip(KeyBody(sortKey(input.value)));
    }
  }

  /** The collate function over a column, with one scratch buffer for all
      of its rows. */
  method CollateColumn(sortKey: string -> seq<byte>, inputs: seq<Option<string>>) returns (results: seq<Option<string>>)
    requires forall i :: 0 <= i < |inputs| && inputs[i].Some? ==> WellFormedKey(sortKey(inputs[i].value))
    ensures results == Collated(sortKey, inputs)
  {
    var scratch := new SortKeyBuffer();
    results := [];
    for i := 0 to |inputs|
      invariant scratch.Valid() && fresh(scratch) && fresh(scratch.buffer)
      invariant results == Collated(sortKey, inputs[..i])
    {
      assert inputs[..i + 1][..i] == inputs[..i];
      if inputs[i].None? {
        results := results + [None];
      } else {
        var text := CollateRow(scratch, sortKey, inputs[i].value);
        results := results + [Some(text)];
      }
    }
    assert inputs[..|inputs|] == inputs;
  }

  datatype BindError =
    | NotImplemented(message: string)
    | Internal(message: string)
    | CollatorCreation(message: string)

  /** The bound data of an ICU collation: the locale of its collator. */
  datatype IcuBindData = IcuBindData(language: string, country: string)

  /** Constructing the bound data creates a collator for the locale, which
      fails when ICU cannot create one. */
  function NewBindData(language: string, country: string, canCreate: (string, string) -> bool): (r: Result<IcuBindData, BindError>)
    ensures r.Ok? <==> canCreate(language, country)
    ensures r.Ok? ==> r.value == IcuBindData(language, country)
  {
    if canCreate(language, country) then Ok(IcuBindData(language, country))
    else Err(CollatorCreation("Failed to create ICU collator!"))
  }

  /** The locale named by a collation name: its language, or its language
      and country separated by `_`; any other number of pieces is an
      internal error. */
  function BindFromName(name: string, canCreate: (string, string) -> bool): (r: Result<IcuBindData, BindError>)
  {
    var splits := Split(name, '_');
    if |splits| == 1 then NewBindData(splits[0], "", canCreate)
    else if |splits| == 2 then NewBindData(splits[0], splits[1], canCreate)
    else Err(Internal("Expected one or two splits"))
  }

  /** The bind rule of every collation function: its function name is the
      collation name. */
  function CollateBind(functionName: string, canCreate: (string, string) -> bool): (r: Result<IcuBindData, BindError>)
    ensures r.Ok? ==> r.value.language != "" && '_' !in r.value.language && '_' !in r.value.country
    ensures r.Ok? ==> |Split(functionName, '_')| in {1, 2}
    ensures !(|Split(functionName, '_')| in {1, 2}) ==> r == Err(Internal("Expected one or two splits"))
    ensures |Split(functionName, '_')| == 1 ==> r == NewBindData(Split(functionName, '_')[0], "", canCreate)
    ensures |Split(functionName, '_')| == 2 ==>
      r == NewBindData(Split(functionName, '_')[0], Split(functionName, '_')[1], canCreate)
  {
    BindFromName(functionName, canCreate)
  }

  /** The collation argument of `icu_sort_key` as the binder sees it: not
      foldable to a constant, or a constant that may be NULL. */
  datatype CollationArgument = NonConstant | Constant(value: Option<string>)

  /** The bind rule of `icu_sort_key`: the collation must be a non-NULL
      constant, checked before the name is split. */
  function SortKeyBind(collation: CollationArgument, canCreate: (string, string) -> bool): (r: Result<IcuBindData, BindError>)
    ensures collation.NonConstant? ==> r.Err? && r.error.NotImplemented?
    ensures collation == Constant(None) ==> r.Err? && r.error.NotImplemented?
    ensures collation.Constant? && collation.value.Some? ==> r == CollateBind(collation.value.value, canCreate)
  {
    match collation
    case NonConstant =>
      Err(NotImplemented("ICU_SORT_KEY(VARCHAR, VARCHAR) with non-constant collation is not supported"))
    case Constant(None) =>
      Err(NotImplemented("ICU_SORT_KEY(VARCHAR, VARCHAR) expected a non-null collation"))
    case Constant(Some(name)) =>
      BindFromName(name, canCreate)
  }

  /** A copy of the bound data builds a new collator for the same locale. */
  function Copy(data: IcuBindData, canCreate: (string, string) -> bool): (r: Result<IcuBindData, BindError>)
  {
    NewBindData(data.language, data.country, canCreate)
  }

  /** Copying data that binding produced succeeds and yields equal data. */
  lemma CopyOfBound(name: string, canCreate: (string, string) -> bool)
    requires CollateBind(name, canCreate).Ok?
    ensures Copy(CollateBind(name, canCreate).value, canCreate) == CollateBind(name, canCreate)
  {
  }

  /** The collation name of a locale: the language alone when the country is
      empty, otherwise language and country joined by `_`; lower-cased. */
  function CollationName(language: string, country: string): string
  {
    Lower(if country == "" then language else language + "_" + country)
  }

  /** Splitting a collation name recovers the lower-cased parts of a locale
      whose language is non-empty and whose parts contain no `_`; binding
      the name then asks for a collator of exactly that locale. */
  lemma CollationNameRoundTrip(language: string, country: string, canCreate: (string, string) -> bool)
    requires language != "" && '_' !in language && '_' !in country
    ensures Split(CollationName(language, country), '_') ==
      if country == "" then [Lower(language)] else [Lower(language), Lower(country)]
    ensures CollateBind(CollationName(language, country), canCreate) ==
      NewBindData(Lower(language), Lower(country), canCreate)
  {
    LowerKeepsUnderscore(language);
    LowerKeepsUnderscore(country);
    if country == "" {
      SplitWhole(Lower(language), '_');
    } else {
      LowerAppend(language + "_", country);
      LowerAppend(language, "_");
      assert Lower("_") == "_";
      SplitPair(Lower(language), Lower(country), '_');
    }
  }

  datatype Locale = Locale(language: string, country: string)

  /** The collations the extension creates on load, one per available
      locale, in the order ICU lists the locales. */
  method LoadCollationNames(locales: seq<Locale>) returns (names: seq<string>)
    ensures |names| == |locales|
    ensures forall i :: 0 <= i < |locales| ==> names[i] == CollationName(locales[i].language, locales[i].country)
  {
    names := [];
    for i := 0 to |locales|
      invariant |names| == i
      invariant forall k :: 0 <= k < i ==> names[k] == CollationName(locales[k].language, locales[k].country)
    {
      var collation: string;
      if locales[i].country == "" {
        collation := locales[i].language;
      } else {
        collation := locales[i].language + "_" + locales[i].country;
      }
      collation := Lower(collation);
      names := names + [collation];
    }
  }

  /** Every collation created on load binds back to its own locale,
      lower-cased, when the locale's language is non-empty and neither part
      contains `_`. */
  lemma {:induction false} LoadedCollationsBind(locales: seq<Locale>, names: seq<string>, canCreate: (string, string) -> bool)
    requires |names| == |locales|
    requires forall i :: 0 <= i < |locales| ==> names[i] == CollationName(locales[i].language, locales[i].country)
    requires forall i :: 0 <= i < |locales| ==>
      locales[i].language != "" && '_' !in locales[i].language && '_' !in locales[i].country
    ensures forall i :: 0 <= i < |locales| ==>
      CollateBind(names[i], canCreate) == NewBindData(Lower(locales[i].language), Lower(locales[i].country), canCreate)
  {
    forall i | 0 <= i < |locales|
      ensures CollateBind(names[i], canCreate) == NewBindData(Lower(locales[i].language), Lower(locales[i].country), canCreate)
    {
      CollationNameRoundTrip(locales[i].language, locales[i].country, canCreate);
    }
  }
}
