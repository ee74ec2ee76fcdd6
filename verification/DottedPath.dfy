/** `path.split(".")`, with which both query languages take a field name apart. */
module DottedPaths {
  function Split(dotted: string): (parts: seq<string>)
    ensures parts != []
  {
    if dotted == "" then [""]
    else
      var rest := Split(dotted[1..]);
      if dotted[0] == '.' then [""] + rest else [[dotted[0]] + rest[0]] + rest[1..]
  }
}
