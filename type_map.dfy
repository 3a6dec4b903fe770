/** The fixed C/C++-to-Go primitive type table of `cpp_to_go_structs`
    (test_cpp/cpp2go.py:4-26) and its lookup with passthrough (line 50). */
module TypeMap {

  /** `type_map`: source type text, as the field splitter produces it, to Go type name. */
  const TypeTable: map<string, string> := map[
    "uint8_t" := "uint8",
    "int8_t" := "int8",
    "int16_t" := "int16",
    "uint16_t" := "uint16",
    "int32_t" := "int32",
    "uint32_t" := "uint32",
    "int64_t" := "int64",
    "uint64_t" := "uint64",
    "char" := "byte",
    "unsigned char" := "byte",
    "short" := "int16",
    "unsigned short" := "uint16",
    "int" := "int",
    "unsigned int" := "uint",
    "long" := "int64",
    "unsigned long" := "uint64",
    "long long" := "int64",
    "unsigned long long" := "uint64",
    "float" := "float32",
    "double" := "float64",
    "bool" := "bool"
  ]

  /** The Go names the table produces. */
  const GoPrimitives: set<string> :=
    {"uint8", "int8", "int16", "uint16", "int32", "uint32", "int64", "uint64",
     "byte", "uint", "int", "float32", "float64", "bool"}

  /** `type_map.get(t, t)`: the Go name of a table entry; any other text passes through. */
  function GoType(t: string): (r: string)
    ensures r == t || r in GoPrimitives
    ensures t !in TypeTable ==> r == t
  {
    if t in TypeTable then TypeTable[t] else t
  }

  /** The fixed-width `<stdint.h>` names map to the Go integer of the same width and sign. */
  lemma FixedWidthEntries()
    ensures GoType("uint8_t") == "uint8" && GoType("int8_t") == "int8"
    ensures GoType("int16_t") == "int16" && GoType("uint16_t") == "uint16"
  {
  }

  /** The same for the 32- and 64-bit names. */
  lemma WideFixedWidthEntries()
    ensures GoType("int32_t") == "int32" && GoType("uint32_t") == "uint32"
    ensures GoType("int64_t") == "int64" && GoType("uint64_t") == "uint64"
  {
  }

  /** The one- and two-word C names up to `int`. */
  lemma CharShortIntEntries()
    ensures GoType("char") == "byte" && GoType("unsigned char") == "byte"
    ensures GoType("short") == "int16" && GoType("unsigned short") == "uint16"
    ensures GoType("int") == "int" && GoType("unsigned int") == "uint"
  {
  }

  /** The `long` family, including the three-word key. */
  lemma LongEntries()
    ensures GoType("long") == "int64" && GoType("unsigned long") == "uint64"
    ensures GoType("long long") == "int64" && GoType("unsigned long long") == "uint64"
  {
  }

  /** Floating-point and boolean names. */
  lemma FloatBoolEntries()
    ensures GoType("float") == "float32" && GoType("double") == "float64"
    ensures GoType("bool") == "bool"
  {
  }

  /** Mapping twice is mapping once: every Go name the table produces is either no
      table key at all or (`int`, `bool`) a key that maps to itself. */
  lemma GoTypeIdempotent(t: string)
    ensures GoType(GoType(t)) == GoType(t)
  {
    if t in TypeTable {
      var g := TypeTable[t];
      assert g in GoPrimitives;
      assert g in TypeTable ==> TypeTable[g] == g;
    }
  }
}
