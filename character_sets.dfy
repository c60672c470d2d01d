/**
 * The registry of Character Set ECIs ("Extended Channel Interpretations",
 * section 5.3.1.1 of ISO/IEC 18004): every supported character set has a dense
 * value identifier, one or more ECI values and a canonical name with aliases.
 * Creating a descriptor registers it in three process-wide maps; two lookups
 * resolve an ECI value or a name back to its descriptor or fail.
 */
module CharacterSets {
  import opened Wrappers

  /** The CharacterSetValueIdentifiers enumeration, in declaration order. */
  datatype ValueIdentifier =
    | Cp437 | ISO8859_1 | ISO8859_2 | ISO8859_3 | ISO8859_4 | ISO8859_5 | ISO8859_6
    | ISO8859_7 | ISO8859_8 | ISO8859_9 | ISO8859_10 | ISO8859_11 | ISO8859_13
    | ISO8859_14 | ISO8859_15 | ISO8859_16 | SJIS | Cp1250 | Cp1251 | Cp1252 | Cp1256
    | UnicodeBigUnmarked | UTF8 | ASCII | Big5 | GB18030 | EUC_KR

  const IdentifierCount: nat := 27

  /** The number the enumeration assigns to a member. */
  function Ordinal(id: ValueIdentifier): (n: nat)
    ensures n < IdentifierCount
  {
    match id
    case Cp437 => 0
    case ISO8859_1 => 1
    case ISO8859_2 => 2
    case ISO8859_3 => 3
    case ISO8859_4 => 4
    case ISO8859_5 => 5
    case ISO8859_6 => 6
    case ISO8859_7 => 7
    case ISO8859_8 => 8
    case ISO8859_9 => 9
    case ISO8859_10 => 10
    case ISO8859_11 => 11
    case ISO8859_13 => 12
    case ISO8859_14 => 13
    case ISO8859_15 => 14
    case ISO8859_16 => 15
    case SJIS => 16
    case Cp1250 => 17
    case Cp1251 => 18
    case Cp1252 => 19
    case Cp1256 => 20
    case UnicodeBigUnmarked => 21
    case UTF8 => 22
    case ASCII => 23
    case Big5 => 24
    case GB18030 => 25
    case EUC_KR => 26
  }

  /** The enumeration's reverse mapping, from a number back to its member. */
  function FromOrdinal(n: int): (r: Option<ValueIdentifier>)
    ensures r.Some? <==> 0 <= n < IdentifierCount
    ensures r.Some? ==> Ordinal(r.value) == n
  {
    DeclarationOrderIsDense();
    if 0 <= n < |DeclarationOrder| then Some(DeclarationOrder[n]) else None
  }

  /** Forward then reverse mapping of the enumeration is the identity. */
  lemma OrdinalRoundTrip(id: ValueIdentifier)
    ensures FromOrdinal(Ordinal(id)) == Some(id)
  {
  }

  /** One CharacterSetECI instance. */
  datatype CharacterSetEci = CharacterSetEci(
    valueIdentifier: ValueIdentifier,
    values: seq<int>,
    name: string,
    otherEncodingNames: seq<string>)

  /** The second constructor argument: a single number or an Int32Array. */
  datatype ValuesParam = Single(value: int) | Several(values: seq<int>)

  /** The arguments after the identifier with which a static instance is declared. */
  datatype Declaration = Declaration(valuesParam: ValuesParam, name: string, otherEncodingNames: seq<string>)

  /** The `values` array the constructor stores for its second argument. */
  function StoredValues(p: ValuesParam): seq<int>
  {
    match p
    case Single(v) => [v]
    case Several(vs) => vs
  }

  /** The instance the constructor builds from its arguments. */
  function Construct(id: ValueIdentifier, d: Declaration): (eci: CharacterSetEci)
    ensures eci.valueIdentifier == id && eci.name == d.name && eci.otherEncodingNames == d.otherEncodingNames
    ensures d.valuesParam.Single? ==> eci.values == [d.valuesParam.value]
    ensures d.valuesParam.Several? ==> eci.values == d.valuesParam.values
  {
    CharacterSetEci(id, StoredValues(d.valuesParam), d.name, d.otherEncodingNames)
  }

  /** The canonical name followed by the aliases. */
  function Names(eci: CharacterSetEci): seq<string>
  {
    [eci.name] + eci.otherEncodingNames
  }

  /** The static declarations of the class, one per enumeration member. */
  function Declared(id: ValueIdentifier): (d: Declaration)
    ensures StoredValues(d.valuesParam) != []
    ensures forall v :: v in StoredValues(d.valuesParam) ==> 0 <= v < 900
  {
    match id
    case Cp437 => Declaration(Several([0, 2]), "Cp437", [])
    case ISO8859_1 => Declaration(Several([1, 3]), "ISO-8859-1", ["ISO88591", "ISO8859_1"])
    case ISO8859_2 => Declaration(Single(4), "ISO-8859-2", ["ISO88592", "ISO8859_2"])
    case ISO8859_3 => Declaration(Single(5), "ISO-8859-3", ["ISO88593", "ISO8859_3"])
    case ISO8859_4 => Declaration(Single(6), "ISO-8859-4", ["ISO88594", "ISO8859_4"])
    case ISO8859_5 => Declaration(Single(7), "ISO-8859-5", ["ISO88595", "ISO8859_5"])
    case ISO8859_6 => Declaration(Single(8), "ISO-8859-6", ["ISO88596", "ISO8859_6"])
    case ISO8859_7 => Declaration(Single(9), "ISO-8859-7", ["ISO88597", "ISO8859_7"])
    case ISO8859_8 => Declaration(Single(10), "ISO-8859-8", ["ISO88598", "ISO8859_8"])
    case ISO8859_9 => Declaration(Single(11), "ISO-8859-9", ["ISO88599", "ISO8859_9"])
    case ISO8859_10 => Declaration(Single(12), "ISO-8859-10", ["ISO885910", "ISO8859_10"])
    case ISO8859_11 => Declaration(Single(13), "ISO-8859-11", ["ISO885911", "ISO8859_11"])
    case ISO8859_13 => Declaration(Single(15), "ISO-8859-13", ["ISO885913", "ISO8859_13"])
    case ISO8859_14 => Declaration(Single(16), "ISO-8859-14", ["ISO885914", "ISO8859_14"])
    case ISO8859_15 => Declaration(Single(17), "ISO-8859-15", ["ISO885915", "ISO8859_15"])
    case ISO8859_16 => Declaration(Single(18), "ISO-8859-16", ["ISO885916", "ISO8859_16"])
    case SJIS => Declaration(Single(20), "SJIS", ["Shift_JIS"])
    case Cp1250 => Declaration(Single(21), "Cp1250", ["windows-1250"])
    case Cp1251 => Declaration(Single(22), "Cp1251", ["windows-1251"])
    case Cp1252 => Declaration(Single(23), "Cp1252", ["windows-1252"])
    case Cp1256 => Declaration(Single(24), "Cp1256", ["windows-1256"])
    case UnicodeBigUnmarked => Declaration(Single(25), "UnicodeBigUnmarked", ["UTF-16BE", "UnicodeBig"])
    case UTF8 => Declaration(Single(26), "UTF8", ["UTF-8"])
    case ASCII => Declaration(Several([27, 170]), "ASCII", ["US-ASCII"])
    case Big5 => Declaration(Single(28), "Big5", [])
    case GB18030 => Declaration(Single(29), "GB18030", ["GB2312", "EUC_CN", "GBK"])
    case EUC_KR => Declaration(Single(30), "EUC_KR", ["EUC-KR"])
  }

  /** The static instance `CharacterSetECI.<id>`. */
  function StaticEci(id: ValueIdentifier): (eci: CharacterSetEci)
    ensures eci.valueIdentifier == id
    ensures eci.values != [] && forall v :: v in eci.values ==> 0 <= v < 900
  {
    Construct(id, Declared(id))
  }

  /** The order in which the static instances are declared, and hence registered. */
  const DeclarationOrder: seq<ValueIdentifier> := [
    Cp437, ISO8859_1, ISO8859_2, ISO8859_3, ISO8859_4, ISO8859_5, ISO8859_6,
    ISO8859_7, ISO8859_8, ISO8859_9, ISO8859_10, ISO8859_11, ISO8859_13,
    ISO8859_14, ISO8859_15, ISO8859_16, SJIS, Cp1250, Cp1251, Cp1252, Cp1256,
    UnicodeBigUnmarked, UTF8, ASCII, Big5, GB18030, EUC_KR]

  /** The static instances in declaration order. */
  function Table(): seq<CharacterSetEci>
  {
    seq(|DeclarationOrder|, i requires 0 <= i < |DeclarationOrder| => StaticEci(DeclarationOrder[i]))
  }

  /** The instances are declared in the enumeration's order: the i-th has identifier i. */
  lemma DeclarationOrderIsDense()
    ensures |DeclarationOrder| == IdentifierCount
    ensures forall i :: 0 <= i < |DeclarationOrder| ==> Ordinal(DeclarationOrder[i]) == i
  {
    forall i | 0 <= i < |DeclarationOrder|
      ensures Ordinal(DeclarationOrder[i]) == i
    {
      if i < 9 {
        DenseBetween(0, 9, i);
      } else if i < 18 {
        DenseBetween(9, 18, i);
      } else {
        DenseBetween(18, 27, i);
      }
    }
  }

  lemma DenseBetween(lo: nat, hi: nat, i: nat)
    requires lo <= i < hi <= |DeclarationOrder|
    requires hi - lo <= 9
    ensures Ordinal(DeclarationOrder[i]) == i
  {
  }

  /**
   * Reference assignment of ECI values to character sets, independent of the
   * registration maps: the ECI assignments of ISO/IEC 18004 that the table covers.
   */
  function ValueOwner(v: int): Option<ValueIdentifier>
  {
    if v == 0 || v == 2 then Some(Cp437)
    else if v == 1 || v == 3 then Some(ISO8859_1)
    else if v == 4 then Some(ISO8859_2)
    else if v == 5 then Some(ISO8859_3)
    else if v == 6 then Some(ISO8859_4)
    else if v == 7 then Some(ISO8859_5)
    else if v == 8 then Some(ISO8859_6)
    else if v == 9 then Some(ISO8859_7)
    else if v == 10 then Some(ISO8859_8)
    else if v == 11 then Some(ISO8859_9)
    else if v == 12 then Some(ISO8859_10)
    else if v == 13 then Some(ISO8859_11)
    else if v == 15 then Some(ISO8859_13)
    else if v == 16 then Some(ISO8859_14)
    else if v == 17 then Some(ISO8859_15)
    else if v == 18 then Some(ISO8859_16)
    else if v == 20 then Some(SJIS)
    else if v == 21 then Some(Cp1250)
    else if v == 22 then Some(Cp1251)
    else if v == 23 then Some(Cp1252)
    else if v == 24 then Some(Cp1256)
    else if v == 25 then Some(UnicodeBigUnmarked)
    else if v == 26 then Some(UTF8)
    else if v == 27 || v == 170 then Some(ASCII)
    else if v == 28 then Some(Big5)
    else if v == 29 then Some(GB18030)
    else if v == 30 then Some(EUC_KR)
    else None
  }

  /** Reference assignment of names and aliases to character sets. */
  function NameOwner(n: string): Option<ValueIdentifier>
  {
    if n == "Cp437" then Some(Cp437)
    else if n in {"ISO-8859-1", "ISO88591", "ISO8859_1"} then Some(ISO8859_1)
    else if n in {"ISO-8859-2", "ISO88592", "ISO8859_2"} then Some(ISO8859_2)
    else if n in {"ISO-8859-3", "ISO88593", "ISO8859_3"} then Some(ISO8859_3)
    else if n in {"ISO-8859-4", "ISO88594", "ISO8859_4"} then Some(ISO8859_4)
    else if n in {"ISO-8859-5", "ISO88595", "ISO8859_5"} then Some(ISO8859_5)
    else if n in {"ISO-8859-6", "ISO88596", "ISO8859_6"} then Some(ISO8859_6)
    else if n in {"ISO-8859-7", "ISO88597", "ISO8859_7"} then Some(ISO8859_7)
    else if n in {"ISO-8859-8", "ISO88598", "ISO8859_8"} then Some(ISO8859_8)
    else if n in {"ISO-8859-9", "ISO88599", "ISO8859_9"} then Some(ISO8859_9)
    else if n in {"ISO-8859-10", "ISO885910", "ISO8859_10"} then Some(ISO8859_10)
    else if n in {"ISO-8859-11", "ISO885911", "ISO8859_11"} then Some(ISO8859_11)
    else if n in {"ISO-8859-13", "ISO885913", "ISO8859_13"} then Some(ISO8859_13)
    else if n in {"ISO-8859-14", "ISO885914", "ISO8859_14"} then Some(ISO8859_14)
    else if n in {"ISO-8859-15", "ISO885915", "ISO8859_15"} then Some(ISO8859_15)
    else if n in {"ISO-8859-16", "ISO885916", "ISO8859_16"} then Some(ISO8859_16)
    else if n in {"SJIS", "Shift_JIS"} then Some(SJIS)
    else if n in {"Cp1250", "windows-1250"} then Some(Cp1250)
    else if n in {"Cp1251", "windows-1251"} then Some(Cp1251)
    else if n in {"Cp1252", "windows-1252"} then Some(Cp1252)
    else if n in {"Cp1256", "windows-1256"} then Some(Cp1256)
    else if n in {"UnicodeBigUnmarked", "UTF-16BE", "UnicodeBig"} then Some(UnicodeBigUnmarked)
    else if n in {"UTF8", "UTF-8"} then Some(UTF8)
    else if n in {"ASCII", "US-ASCII"} then Some(ASCII)
    else if n == "Big5" then Some(Big5)
    else if n in {"GB18030", "GB2312", "EUC_CN", "GBK"} then Some(GB18030)
    else if n in {"EUC_KR", "EUC-KR"} then Some(EUC_KR)
    else None
  }

  /** Each declared ECI value belongs to its own character set and to no other. */
  lemma ValueOwnerMatchesDeclarations(id: ValueIdentifier, v: int)
    ensures v in StaticEci(id).values <==> ValueOwner(v) == Some(id)
  {
  }

  /** Each declared name or alias belongs to its own character set and to no other. */
  lemma NameOwnerMatchesDeclarations(id: ValueIdentifier, n: string)
    ensures n in Names(StaticEci(id)) <==> NameOwner(n) == Some(id)
  {
    if n in Names(StaticEci(id)) {
      var k := Ordinal(id);
      if k < 6 {
        NamesOfGroup0(id, n);
      } else if k < 12 {
        NamesOfGroup1(id, n);
      } else if k < 17 {
        NamesOfGroup2(id, n);
      } else if k < 21 {
        NamesOfGroup3(id, n);
      } else if k < 24 {
        NamesOfGroup4(id, n);
      } else {
        NamesOfGroup5(id, n);
      }
    }
  }

  /** The owner of every name of the character sets with identifiers 0 to 5. */
  lemma NamesOfGroup0(id: ValueIdentifier, n: string)
    requires 0 <= Ordinal(id) < 6 && n in Names(StaticEci(id))
    ensures NameOwner(n) == Some(id)
  {
  }

  /** The owner of every name of the character sets with identifiers 6 to 11. */
  lemma NamesOfGroup1(id: ValueIdentifier, n: string)
    requires 6 <= Ordinal(id) < 12 && n in Names(StaticEci(id))
    ensures NameOwner(n) == Some(id)
  {
  }

  /** The owner of every name of the character sets with identifiers 12 to 16. */
  lemma NamesOfGroup2(id: ValueIdentifier, n: string)
    requires 12 <= Ordinal(id) < 17 && n in Names(StaticEci(id))
    ensures NameOwner(n) == Some(id)
  {
  }

  /** The owner of every name of the character sets with identifiers 17 to 20. */
  lemma NamesOfGroup3(id: ValueIdentifier, n: string)
    requires 17 <= Ordinal(id) < 21 && n in Names(StaticEci(id))
    ensures NameOwner(n) == Some(id)
  {
  }

  /** The owner of every name of the character sets with identifiers 21 to 23. */
  lemma NamesOfGroup4(id: ValueIdentifier, n: string)
    requires 21 <= Ordinal(id) < 24 && n in Names(StaticEci(id))
    ensures NameOwner(n) == Some(id)
  {
  }

  /** The owner of every name of the character sets with identifiers 24 to 26. */
  lemma NamesOfGroup5(id: ValueIdentifier, n: string)
    requires 24 <= Ordinal(id) < 27 && n in Names(StaticEci(id))
    ensures NameOwner(n) == Some(id)
  {
  }

  // ---------------------------------------------------------------------------
  // The three static maps and what registering an instance does to them.

  /** VALUE_IDENTIFIER_TO_ECI, VALUES_TO_ECI and NAME_TO_ECI. */
  datatype Tables = Tables(
    valueIdentifierToEci: map<int, CharacterSetEci>,
    valuesToEci: map<int, CharacterSetEci>,
    nameToEci: map<string, CharacterSetEci>)

  const EmptyTables := Tables(map[], map[], map[])

  /** The keys under which an instance is entered in each of the three maps. */
  function IdentifierKeys(eci: CharacterSetEci): seq<int> { [Ordinal(eci.valueIdentifier)] }
  function ValueKeys(eci: CharacterSetEci): seq<int> { eci.values }
  function NameKeys(eci: CharacterSetEci): seq<string> { Names(eci) }

  /** `m` after `Map.set(k, eci)` for every key `k` of `keys`, in order. */
  function Enter<K>(m: map<K, CharacterSetEci>, keys: seq<K>, eci: CharacterSetEci): map<K, CharacterSetEci>
    decreases |keys|
  {
    if keys == [] then m else Enter(m, keys[..|keys| - 1], eci)[keys[|keys| - 1] := eci]
  }

  /** Entering keys adds exactly those keys, all mapped to `eci`, and keeps every other entry. */
  lemma {:induction false} EnterEffect<K>(m: map<K, CharacterSetEci>, keys: seq<K>, eci: CharacterSetEci, k: K)
    ensures k in Enter(m, keys, eci) <==> k in m || k in keys
    ensures k in Enter(m, keys, eci) ==> Enter(m, keys, eci)[k] == if k in keys then eci else m[k]
    decreases |keys|
  {
    if keys != [] {
      var init := keys[..|keys| - 1];
      EnterEffect(m, init, eci, k);
      assert k in keys <==> k in init || k == keys[|keys| - 1] by {
        assert keys == init + [keys[|keys| - 1]];
      }
    }
  }

  /** The maps after the constructor has registered `eci`. */
  function Registered(t: Tables, eci: CharacterSetEci): Tables
  {
    Tables(
      Enter(t.valueIdentifierToEci, IdentifierKeys(eci), eci),
      Enter(t.valuesToEci, ValueKeys(eci), eci),
      Enter(t.nameToEci, NameKeys(eci), eci))
  }

  /** One map after registering every instance of `ecis`, in order. */
  function EnterAll<K>(ecis: seq<CharacterSetEci>, keys: CharacterSetEci -> seq<K>): map<K, CharacterSetEci>
    decreases |ecis|
  {
    if ecis == [] then map[]
    else Enter(EnterAll(ecis[..|ecis| - 1], keys), keys(ecis[|ecis| - 1]), ecis[|ecis| - 1])
  }

  /** The three maps after registering every instance of `ecis`, in order. */
  function RegisterAll(ecis: seq<CharacterSetEci>): Tables
  {
    Tables(EnterAll(ecis, IdentifierKeys), EnterAll(ecis, ValueKeys), EnterAll(ecis, NameKeys))
  }

  /** The maps once every static instance has been created. */
  function Initial(): Tables
  {
    RegisterAll(Table())
  }

  /** Registering one more instance extends the fold by one step. */
  lemma RegisterAllStep(ecis: seq<CharacterSetEci>, eci: CharacterSetEci)
    ensures RegisterAll(ecis + [eci]) == Registered(RegisterAll(ecis), eci)
  {
    assert (ecis + [eci])[..|ecis|] == ecis;
  }

  /**
   * Last writer wins: a key is in the folded map exactly when some instance has
   * it, and it maps to the last such instance.
   */
  lemma {:induction false} EnterAllLastWriter<K>(ecis: seq<CharacterSetEci>, keys: CharacterSetEci -> seq<K>, k: K)
    ensures k in EnterAll(ecis, keys) <==> exists i :: 0 <= i < |ecis| && k in keys(ecis[i])
    ensures forall i :: 0 <= i < |ecis| && k in keys(ecis[i]) && (forall j :: i < j < |ecis| ==> k !in keys(ecis[j]))
              ==> k in EnterAll(ecis, keys) && EnterAll(ecis, keys)[k] == ecis[i]
    decreases |ecis|
  {
    if ecis != [] {
      var n := |ecis| - 1;
      var prefix := ecis[..n];
      EnterAllLastWriter(prefix, keys, k);
      EnterEffect(EnterAll(prefix, keys), keys(ecis[n]), ecis[n], k);
      assert forall i :: 0 <= i < n ==> prefix[i] == ecis[i];
      if k in keys(ecis[n]) {
      } else {
        assert (exists i :: 0 <= i < |ecis| && k in keys(ecis[i])) <==> (exists i :: 0 <= i < n && k in keys(prefix[i]));
      }
    }
  }

  // ---------------------------------------------------------------------------
  // The static table: dense identifiers, distinct values, distinct names.

  /** The instance with identifier `id` sits at position `Ordinal(id)` of the table. */
  lemma TableAt(id: ValueIdentifier)
    ensures |Table()| == IdentifierCount
    ensures Ordinal(id) < |Table()| && Table()[Ordinal(id)] == StaticEci(id)
  {
    DeclarationOrderIsDense();
    var other := DeclarationOrder[Ordinal(id)];
    OrdinalRoundTrip(id);
    OrdinalRoundTrip(other);
  }

  /** Every instance is registered under its own identifier, which equals its position. */
  lemma TableIdentifiersAreDense()
    ensures |Table()| == IdentifierCount
    ensures forall i :: 0 <= i < |Table()| ==> Ordinal(Table()[i].valueIdentifier) == i
  {
    DeclarationOrderIsDense();
  }

  /** No ECI value is declared by two instances of the table. */
  lemma TableValuesAreDistinct()
    ensures forall i, j, v :: 0 <= i < |Table()| && 0 <= j < |Table()| && v in Table()[i].values && v in Table()[j].values
              ==> i == j
  {
    DeclarationOrderIsDense();
    forall i, j, v | 0 <= i < |Table()| && 0 <= j < |Table()| && v in Table()[i].values && v in Table()[j].values
      ensures i == j
    {
      ValueOwnerMatchesDeclarations(DeclarationOrder[i], v);
      ValueOwnerMatchesDeclarations(DeclarationOrder[j], v);
    }
  }

  /** No name or alias is declared by two instances of the table. */
  lemma TableNamesAreDistinct()
    ensures forall i, j, n :: 0 <= i < |Table()| && 0 <= j < |Table()| && n in Names(Table()[i]) && n in Names(Table()[j])
              ==> i == j
  {
    DeclarationOrderIsDense();
    forall i, j, n | 0 <= i < |Table()| && 0 <= j < |Table()| && n in Names(Table()[i]) && n in Names(Table()[j])
      ensures i == j
    {
      NameOwnerMatchesDeclarations(DeclarationOrder[i], n);
      NameOwnerMatchesDeclarations(DeclarationOrder[j], n);
    }
  }

  /** After initialisation VALUE_IDENTIFIER_TO_ECI maps exactly 0..26, each to its instance. */
  lemma InitialIdentifiers(k: int)
    ensures k in Initial().valueIdentifierToEci <==> 0 <= k < IdentifierCount
    ensures k in Initial().valueIdentifierToEci ==> Initial().valueIdentifierToEci[k] == StaticEci(FromOrdinal(k).value)
  {
    TableIdentifiersAreDense();
    EnterAllLastWriter(Table(), IdentifierKeys, k);
    if 0 <= k < IdentifierCount {
      var id := FromOrdinal(k).value;
      TableAt(id);
      assert k in IdentifierKeys(Table()[k]);
    }
  }

  /** After initialisation VALUES_TO_ECI maps every declared value to its own instance. */
  lemma InitialValue(id: ValueIdentifier, v: int)
    requires v in StaticEci(id).values
    ensures v in Initial().valuesToEci && Initial().valuesToEci[v] == StaticEci(id)
  {
    TableAt(id);
    TableValuesAreDistinct();
    EnterAllLastWriter(Table(), ValueKeys, v);
    assert v in ValueKeys(Table()[Ordinal(id)]);
  }

  /** After initialisation NAME_TO_ECI maps every declared name and alias to its own instance. */
  lemma InitialName(id: ValueIdentifier, n: string)
    requires n in Names(StaticEci(id))
    ensures n in Initial().nameToEci && Initial().nameToEci[n] == StaticEci(id)
  {
    TableAt(id);
    TableNamesAreDistinct();
    EnterAllLastWriter(Table(), NameKeys, n);
    assert n in NameKeys(Table()[Ordinal(id)]);
  }

  /** Whatever VALUES_TO_ECI holds after initialisation is a declared value of its instance. */
  lemma InitialValueSound(v: int)
    requires v in Initial().valuesToEci
    ensures ValueOwner(v).Some? && Initial().valuesToEci[v] == StaticEci(ValueOwner(v).value)
  {
    EnterAllLastWriter(Table(), ValueKeys, v);
    DeclarationOrderIsDense();
    var i :| 0 <= i < |Table()| && v in ValueKeys(Table()[i]);
    ValueOwnerMatchesDeclarations(DeclarationOrder[i], v);
    InitialValue(DeclarationOrder[i], v);
  }

  /** Whatever NAME_TO_ECI holds after initialisation is a declared name of its instance. */
  lemma InitialNameSound(n: string)
    requires n in Initial().nameToEci
    ensures NameOwner(n).Some? && Initial().nameToEci[n] == StaticEci(NameOwner(n).value)
  {
    EnterAllLastWriter(Table(), NameKeys, n);
    DeclarationOrderIsDense();
    var i :| 0 <= i < |Table()| && n in NameKeys(Table()[i]);
    NameOwnerMatchesDeclarations(DeclarationOrder[i], n);
    InitialName(DeclarationOrder[i], n);
  }

  // ---------------------------------------------------------------------------
  // Lookups.

  /** The exception both lookups throw; the message is spelled as ZXing spells it. */
  datatype FormatException = FormatException(message: string)

  const IncorrectValue := FormatException("incorect value")

  /** getCharacterSetECIByValue: the range check, then VALUES_TO_ECI. */
  function GetCharacterSetEciByValue(t: Tables, value: int): (r: Result<CharacterSetEci, FormatException>)
    ensures r.Success? <==> 0 <= value < 900 && value in t.valuesToEci
    ensures r.Success? ==> r.value == t.valuesToEci[value]
    ensures r.Failure? ==> r.error == IncorrectValue
  {
    if value < 0 || value >= 900 then Failure(IncorrectValue)
    else if value !in t.valuesToEci then Failure(IncorrectValue)
    else Success(t.valuesToEci[value])
  }

  /** getCharacterSetECIByName: NAME_TO_ECI, exact match only. */
  function GetCharacterSetEciByName(t: Tables, name: string): (r: Result<CharacterSetEci, FormatException>)
    ensures r.Success? <==> name in t.nameToEci
    ensures r.Success? ==> r.value == t.nameToEci[name]
    ensures r.Failure? ==> r.error == IncorrectValue
  {
    if name !in t.nameToEci then Failure(IncorrectValue) else Success(t.nameToEci[name])
  }

  /** getValue: the first stored ECI value (undefined, here None, for an empty array). */
  function GetValue(eci: CharacterSetEci): (r: Option<int>)
    ensures r.Some? <==> eci.values != []
    ensures r.Some? ==> r.value in eci.values && r.value == eci.values[0]
  {
    if eci.values == [] then None else Some(eci.values[0])
  }

  /**
   * equals: `o` is None when the argument is not a CharacterSetECI instance
   * (any other object, null or undefined); otherwise names are compared.
   */
  function Equals(eci: CharacterSetEci, o: Option<CharacterSetEci>): (b: bool)
    ensures o == Some(eci) ==> b
    ensures b ==> o.Some? && o.value.name == eci.name
    ensures o.Some? && o.value.name != eci.name ==> !b
    ensures o.Some? && o.value.name == eci.name ==> b
  {
    o.Some? && eci.name == o.value.name
  }

  /** Every ECI value of a descriptor resolves back to that descriptor. */
  lemma ByValueFindsDeclared(id: ValueIdentifier, v: int)
    requires v in StaticEci(id).values
    ensures GetCharacterSetEciByValue(Initial(), v) == Success(StaticEci(id))
  {
    ValueOwnerMatchesDeclarations(id, v);
    InitialValue(id, v);
  }

  /**
   * The value lookup agrees with the reference assignment: it succeeds exactly on
   * the assigned values, with the owning descriptor, and throws on all others.
   */
  lemma ByValueMatchesOwner(v: int)
    ensures GetCharacterSetEciByValue(Initial(), v)
            == if ValueOwner(v).Some? then Success(StaticEci(ValueOwner(v).value)) else Failure(IncorrectValue)
  {
    if ValueOwner(v).Some? {
      ValueOwnerMatchesDeclarations(ValueOwner(v).value, v);
      ByValueFindsDeclared(ValueOwner(v).value, v);
    } else if v in Initial().valuesToEci {
      InitialValueSound(v);
    }
  }

  /** The reference assignment covers 0..13, 15..18, 20..30 and 170. */
  lemma ValueOwnerDomain(v: int)
    ensures ValueOwner(v).Some? <==> (0 <= v <= 13 || 15 <= v <= 18 || 20 <= v <= 30 || v == 170)
  {
  }

  /** The values that resolve: 0..13, 15..18, 20..30 and 170; all else throws. */
  lemma ByValueSucceedsExactlyOn(v: int)
    ensures GetCharacterSetEciByValue(Initial(), v).Success?
            <==> (0 <= v <= 13 || 15 <= v <= 18 || 20 <= v <= 30 || v == 170)
    ensures GetCharacterSetEciByValue(Initial(), v).Success? ==> v in GetCharacterSetEciByValue(Initial(), v).value.values
  {
    ByValueMatchesOwner(v);
    ValueOwnerDomain(v);
    if ValueOwner(v).Some? {
      ValueOwnerMatchesDeclarations(ValueOwner(v).value, v);
    }
  }

  /** In-range values without a descriptor throw, like out-of-range ones (no null is returned). */
  lemma ByValueRejectsUnassigned(v: int)
    requires v == 14 || v == 19 || (31 <= v < 900 && v != 170)
    ensures GetCharacterSetEciByValue(Initial(), v) == Failure(IncorrectValue)
  {
    ByValueMatchesOwner(v);
    ValueOwnerDomain(v);
  }

  /** Values outside 0..899 throw whatever the maps hold. */
  lemma ByValueRejectsOutOfRange(t: Tables, v: int)
    requires v < 0 || v >= 900
    ensures GetCharacterSetEciByValue(t, v) == Failure(IncorrectValue)
  {
  }

  /** The canonical name and every alias resolve back to their descriptor. */
  lemma ByNameFindsDeclared(id: ValueIdentifier, n: string)
    requires n in Names(StaticEci(id))
    ensures GetCharacterSetEciByName(Initial(), n) == Success(StaticEci(id))
  {
    InitialName(id, n);
  }

  /**
   * The name lookup agrees with the reference assignment: it succeeds exactly on
   * declared names and aliases, with their descriptor, and throws on every other string.
   */
  lemma ByNameMatchesOwner(n: string)
    ensures GetCharacterSetEciByName(Initial(), n)
            == if NameOwner(n).Some? then Success(StaticEci(NameOwner(n).value)) else Failure(IncorrectValue)
    ensures GetCharacterSetEciByName(Initial(), n).Success? <==> exists id :: n in Names(StaticEci(id))
  {
    if NameOwner(n).Some? {
      NameOwnerMatchesDeclarations(NameOwner(n).value, n);
      ByNameFindsDeclared(NameOwner(n).value, n);
    } else {
      if n in Initial().nameToEci {
        InitialNameSound(n);
      }
      forall id ensures n !in Names(StaticEci(id)) {
        NameOwnerMatchesDeclarations(id, n);
      }
    }
  }

  /** A single number is stored as a one-element array, and getValue returns it. */
  lemma SingleValueIsStoredAlone(id: ValueIdentifier, v: int, name: string, others: seq<string>)
    ensures Construct(id, Declaration(Single(v), name, others)).values == [v]
    ensures GetValue(Construct(id, Declaration(Single(v), name, others))) == Some(v)
  {
  }

  /** getValue reports a value that resolves back to the same descriptor. */
  lemma GetValueRoundTrip(id: ValueIdentifier)
    ensures GetValue(StaticEci(id)).Some?
    ensures GetCharacterSetEciByValue(Initial(), GetValue(StaticEci(id)).value) == Success(StaticEci(id))
  {
    ByValueFindsDeclared(id, StaticEci(id).values[0]);
  }

  /** ASCII reports 27 although 170 resolves to it as well. */
  lemma AsciiReportsFirstValue()
    ensures GetValue(StaticEci(ASCII)) == Some(27)
    ensures GetCharacterSetEciByValue(Initial(), 170) == Success(StaticEci(ASCII))
  {
    ByValueFindsDeclared(ASCII, 170);
  }

  /** equals is reflexive, symmetric and transitive on instances. */
  lemma EqualsIsEquivalence(a: CharacterSetEci, b: CharacterSetEci, c: CharacterSetEci)
    ensures Equals(a, Some(a))
    ensures Equals(a, Some(b)) == Equals(b, Some(a))
    ensures Equals(a, Some(b)) && Equals(b, Some(c)) ==> Equals(a, Some(c))
    ensures !Equals(a, None)
  {
  }

  /** Two static instances are equal exactly when they are the same instance. */
  lemma StaticEqualsIsIdentity(a: ValueIdentifier, b: ValueIdentifier)
    ensures Equals(StaticEci(a), Some(StaticEci(b))) <==> a == b
  {
    if Equals(StaticEci(a), Some(StaticEci(b))) {
      NameOwnerMatchesDeclarations(a, StaticEci(a).name);
      NameOwnerMatchesDeclarations(b, StaticEci(b).name);
    }
  }

  // ---------------------------------------------------------------------------
  // The static state, updated in place by the constructor.

  /** The class's three static maps. */
  class Registry {
    var valueIdentifierToEci: map<int, CharacterSetEci>
    var valuesToEci: map<int, CharacterSetEci>
    var nameToEci: map<string, CharacterSetEci>

    function Maps(): Tables
      reads this
    {
      Tables(valueIdentifierToEci, valuesToEci, nameToEci)
    }

    /** Class initialisation: each static instance is created, in declaration order. */
    constructor ()
      ensures Maps() == Initial()
    {
      valueIdentifierToEci, valuesToEci, nameToEci := map[], map[], map[];
      new;
      var i := 0;
      while i < |DeclarationOrder|
        invariant 0 <= i <= |DeclarationOrder|
        invariant Maps() == RegisterAll(Table()[..i])
      {
        var id := DeclarationOrder[i];
        var d := Declared(id);
        var eci := Register(id, d.valuesParam, d.name, d.otherEncodingNames);
        RegisterAllStep(Table()[..i], eci);
        assert Table()[..i] + [eci] == Table()[..i + 1];
        i := i + 1;
      }
      assert Table()[..i] == Table();
    }

    /** The CharacterSetECI constructor: builds the instance and registers it in the three maps. */
    method Register(valueIdentifier: ValueIdentifier, valuesParam: ValuesParam, name: string, otherEncodingNames: seq<string>)
      returns (eci: CharacterSetEci)
      modifies this
      ensures eci == Construct(valueIdentifier, Declaration(valuesParam, name, otherEncodingNames))
      ensures Maps() == Registered(old(Maps()), eci)
    {
      var values := StoredValues(valuesParam);
      eci := CharacterSetEci(valueIdentifier, values, name, otherEncodingNames);
      valueIdentifierToEci := valueIdentifierToEci[Ordinal(valueIdentifier) := eci];
      nameToEci := nameToEci[name := eci];
      assert [name] + otherEncodingNames[..0] == [name] && [name][..0] == [];
      for i := 0 to |values|
        invariant valuesToEci == Enter(old(valuesToEci), values[..i], eci)
        invariant nameToEci == old(nameToEci)[name := eci]
        invariant valueIdentifierToEci == old(valueIdentifierToEci)[Ordinal(valueIdentifier) := eci]
      {
        assert values[..i + 1][..i] == values[..i];
        valuesToEci := valuesToEci[values[i] := eci];
      }
      assert values[..|values|] == values;
      for i := 0 to |otherEncodingNames|
        invariant nameToEci == Enter(old(nameToEci), [name] + otherEncodingNames[..i], eci)
        invariant valuesToEci == Enter(old(valuesToEci), values, eci)
        invariant valueIdentifierToEci == old(valueIdentifierToEci)[Ordinal(valueIdentifier) := eci]
      {
        assert ([name] + otherEncodingNames[..i + 1])[..i + 1] == [name] + otherEncodingNames[..i];
        nameToEci := nameToEci[otherEncodingNames[i] := eci];
      }
      assert otherEncodingNames[..|otherEncodingNames|] == otherEncodingNames;
      assert [Ordinal(valueIdentifier)][..0] == [];
      assert Names(eci) == [name] + otherEncodingNames[..|otherEncodingNames|];
      assert valueIdentifierToEci == Enter(old(valueIdentifierToEci), IdentifierKeys(eci), eci);
      assert valuesToEci == Enter(old(valuesToEci), ValueKeys(eci), eci);
      assert nameToEci == Enter(old(nameToEci), NameKeys(eci), eci);
    }
  }
}
