/**
 * The filler `vfat_search_entry`: compares a directory entry's name with
 * the name being searched for and, on a match, records that it was found
 * and copies the entry's attributes out.
 */
module FatSearch {
  import opened Bytes
  import opened FatDirectory

  /**
   * `struct vfat_search_data`: the name sought, a found flag and the place
   * the matching entry's attributes are copied to (modelled as a field).
   */
  class SearchData<Stat> {
    const name: seq<u8>
    var found: int
    var st: Stat

    constructor (name: seq<u8>, st: Stat)
      ensures this.name == name && found == 0 && this.st == st
    {
      this.name := name;
      found := 0;
      this.st := st;
    }

    /**
     * `strcmp` against the sought name; on equality set `found` to 1, copy
     * the attributes and return 1 so the directory reader can stop, else
     * return 0 and change nothing. The offset argument is unused.
     */
    method SearchEntry(entryName: seq<u8>, entrySt: Stat, offs: int) returns (r: int)
      modifies this
      ensures r == 1 <==> CString(name) == CString(entryName)
      ensures r == 0 || r == 1
      ensures r == 1 ==> found == 1 && st == entrySt
      ensures r == 0 ==> found == old(found) && st == old(st)
    {
      if CString(name) != CString(entryName) {
        return 0;
      }
      found := 1;
      st := entrySt;
      return 1;
    }
  }

  /** A byte sequence without NUL is its own C string. */
  lemma {:induction false} CStringOfNulFree(s: seq<u8>)
    requires 0 !in s
    ensures CString(s) == s
  {
    if s != [] {
      CStringOfNulFree(s[1..]);
    }
  }

  /**
   * Two NUL-terminated names match exactly when the bytes before their
   * terminators are equal; what follows a terminator never matters.
   */
  lemma NamesMatchIff(a: seq<u8>, x: seq<u8>, b: seq<u8>, y: seq<u8>)
    requires 0 !in a && 0 !in b
    ensures CString(a + [0] + x) == CString(b + [0] + y) <==> a == b
  {
    CStringStops(a, x);
    CStringStops(b, y);
    CStringOfNulFree(a);
    CStringOfNulFree(b);
  }
}
