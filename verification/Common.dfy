/** Types shared by every component of the model. */
module Common {

  datatype Option<+T> = None | Some(value: T)

  /** The result of an operation that the program ends with an exception. */
  datatype Outcome = Ok | Thrown(why: string)

  const TWO_TO_64: nat := 0x1_0000_0000_0000_0000

  /** A C++ `std::string`: a sequence of bytes. */
  type Bytes = seq<bv8>

  predicate Distinct<T(==)>(s: seq<T>) {
    forall i, j :: 0 <= i < j < |s| ==> s[i] != s[j]
  }

  /** A hash function as the program uses it: text in, 64 hexadecimal characters out. */
  type HashFn = Bytes -> Bytes

  ghost predicate DigestsHave64Chars(h: HashFn) {
    forall s: Bytes :: |h(s)| == 64
  }

  /** Two of these texts have the same hash. */
  ghost predicate Collide(h: HashFn, texts: set<Bytes>, x: Bytes, y: Bytes) {
    x in texts && y in texts && x != y && h(x) == h(y)
  }
}
