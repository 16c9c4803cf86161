/** Values shared by the tokenizer, the filter and the command handlers. */
module Common {

  datatype Option<+T> = None | Some(value: T)

  /** A 128-bit COM identifier (CLSID or IID), laid out as the Windows GUID structure. */
  datatype Guid = Guid(data1: bv32, data2: bv16, data3: bv16, data4: bv64)

  /**
   * Parsing of a textual GUID. The parser lives outside the modelled file, so every
   * operation that needs it takes it as a parameter and assumes nothing about it.
   */
  type GuidParser = string -> Option<Guid>

  /** The characters std::isspace accepts in the "C" locale: space, \t, \n, \v, \f, \r. */
  predicate IsSpace(c: char)
  {
    c == ' ' || ('\t' <= c && c <= '\r')
  }
}
