/** PEM bundles: the chunking printer, the line-oriented reader, and the issuer's certificate bundle. */
module Pem {
  import opened Wrappers
  import opened Text
  import opened Base64
  import opened X509

  // ---- Lines --------------------------------------------------------------------

  /** The lines of a text; a final line break does not start another line. */
  function Lines(s: string): seq<string> {
    var parts := Split(s, '\n');
    if parts[|parts| - 1] == "" then parts[..|parts| - 1] else parts
  }

  function Unlines(lines: seq<string>): string {
    if lines == [] then "" else lines[0] + ['\n'] + Unlines(lines[1..])
  }

  lemma EmptyLines()
    ensures Lines("") == []
  {
  }

  lemma LinesFirst(line: string, rest: string)
    requires Free(line, '\n')
    ensures Lines(line + ['\n'] + rest) == [line] + Lines(rest)
  {
    hide Split;
    SplitFirst(line, '\n', rest);
    var parts := Split(rest, '\n');
    assert ([line] + parts)[..|parts|] == [line] + parts[..|parts| - 1];
  }

  lemma {:induction false} LinesUnlines(lines: seq<string>, rest: string)
    requires AllFree(lines, '\n')
    ensures Lines(Unlines(lines) + rest) == lines + Lines(rest)
  {
    hide Lines;
    if lines == [] {
      assert Unlines(lines) + rest == rest;
    } else {
      LinesUnlines(lines[1..], rest);
      LinesFirst(lines[0], Unlines(lines[1..]) + rest);
      assert Unlines(lines) + rest == lines[0] + ['\n'] + (Unlines(lines[1..]) + rest);
    }
  }

  lemma {:induction false} UnlinesAppend(lines: seq<string>, last: string)
    ensures Unlines(lines + [last]) == Unlines(lines) + last + ['\n']
  {
    if lines == [] {
      assert lines + [last] == [last];
      assert Unlines([last]) == last + ['\n'] + Unlines([]);
    } else {
      UnlinesAppend(lines[1..], last);
      assert (lines + [last])[1..] == lines[1..] + [last];
      var a, b := lines[0] + ['\n'], Unlines(lines[1..]);
      assert a + (b + last + ['\n']) == (a + b) + last + ['\n'];
    }
  }

  // ---- Printing -------------------------------------------------------------------

  function Begin(tag: string): string {
    "-----BEGIN " + tag + "-----"
  }

  function End(tag: string): string {
    "-----END " + tag + "-----"
  }

  function Concat(parts: seq<string>): string {
    if parts == [] then "" else parts[0] + Concat(parts[1..])
  }

  /** Pieces of 64 characters, the last one possibly shorter. */
  function Chunks(s: string): (chunks: seq<string>)
    ensures forall i :: 0 <= i < |chunks| ==> 0 < |chunks[i]| <= 64 && (i < |chunks| - 1 ==> |chunks[i]| == 64)
  {
    if s == "" then []
    else if |s| <= 64 then [s]
    else [s[..64]] + Chunks(s[64..])
  }

  lemma {:induction false} ChunksOf(s: string)
    ensures Concat(Chunks(s)) == s
    ensures forall i, j :: 0 <= i < |Chunks(s)| && 0 <= j < |Chunks(s)[i]| ==> Chunks(s)[i][j] in s
  {
    if |s| > 64 {
      ChunksOf(s[64..]);
      assert s == s[..64] + s[64..];
      assert Chunks(s)[1..] == Chunks(s[64..]);
    } else if s != "" {
      assert Concat([s]) == s + Concat([]);
    }
  }

  lemma ChunksFirst(s: string, n: nat)
    requires s != "" && n == if |s| > 64 then 64 else |s|
    ensures Chunks(s) == [s[..n]] + Chunks(s[n..])
  {
    if |s| <= 64 {
      assert s[..n] == s && s[n..] == "";
    }
  }

  function BlockLines(der: seq<byte>, tag: string): seq<string> {
    [Begin(tag)] + Chunks(Encode(Standard, der)) + [End(tag)]
  }

  function PemText(der: seq<byte>, tag: string): string {
    Unlines(BlockLines(der, tag))
  }

  lemma UnlinesOne(line: string)
    ensures Unlines([line]) == line + "\n"
  {
    assert [line][1..] == [];
    assert Unlines([line]) == line + ['\n'] + Unlines([]);
  }

  lemma NoChunks()
    ensures Chunks("") == []
  {
  }

  /** One PEM block, written line by line. */
  method DerToPem(der: seq<byte>, tag: string) returns (pem: string)
    ensures pem == PemText(der, tag)
  {
    hide Encode, Begin, End, Unlines, Chunks;
    var b64 := Encode(Standard, der);
    pem := Begin(tag) + "\n";
    ghost var lines := [Begin(tag)];
    UnlinesOne(Begin(tag));
    var i := 0;
    assert b64[0..] == b64;
    while i < |b64|
      invariant 0 <= i <= |b64|
      invariant lines + Chunks(b64[i..]) == [Begin(tag)] + Chunks(b64)
      invariant pem == Unlines(lines)
    {
      var end := if i + 64 < |b64| then i + 64 else |b64|;
      var chunk := b64[i..end];
      ChunksFrom(b64, i, end);
      UnlinesAppend(lines, chunk);
      assert lines + ([chunk] + Chunks(b64[end..])) == (lines + [chunk]) + Chunks(b64[end..]);
      lines := lines + [chunk];
      pem := pem + chunk + "\n";
      i := end;
    }
    NoChunks();
    assert b64[i..] == "" && lines + [] == lines;
    UnlinesAppend(lines, End(tag));
    pem := pem + End(tag) + "\n";
  }

  lemma ChunksFrom(s: string, i: nat, end: nat)
    requires i < |s| && end == if i + 64 < |s| then i + 64 else |s|
    ensures Chunks(s[i..]) == [s[i..end]] + Chunks(s[end..])
  {
    hide Chunks;
    assert s[i..][..end - i] == s[i..end] && s[i..][end - i..] == s[end..];
    ChunksFirst(s[i..], end - i);
  }

  /** The first and the last line of a block say what it is. */
  lemma MarkerLines(der: seq<byte>, tag: string)
    ensures var lines := BlockLines(der, tag);
            && |lines| >= 2 && lines[0] == "-----BEGIN " + tag + "-----"
            && lines[|lines| - 1] == "-----END " + tag + "-----"
            && Concat(lines[1..|lines| - 1]) == Encode(Standard, der)
  {
    hide Encode, Chunks;
    ChunksOf(Encode(Standard, der));
    var lines := BlockLines(der, tag);
    assert lines[1..|lines| - 1] == Chunks(Encode(Standard, der));
  }

  // ---- Reading ----------------------------------------------------------------------

  /** Where the reader stands: the text of the open block, if one is open, and what it has decoded. */
  datatype Scan = Scan(body: Option<string>, blocks: seq<seq<byte>>)

  function Decoded(b64: string): seq<seq<byte>> {
    match Decode(Standard, b64) case Some(der) => [der] case None => []
  }

  function Read(tag: string, scan: Scan, line: string): Scan {
    if line == Begin(tag) then Scan(Some(""), scan.blocks)
    else match scan.body
      case None => scan
      case Some(b64) =>
        if line == End(tag) then Scan(None, scan.blocks + Decoded(b64))
        else Scan(Some(b64 + line), scan.blocks)
  }

  function ReadAll(tag: string, scan: Scan, lines: seq<string>): Scan
    decreases |lines|
  {
    if lines == [] then scan else ReadAll(tag, Read(tag, scan, Trim(lines[0])), lines[1..])
  }

  /** Every block with the label, decoded, in order. */
  function Blocks(pem: string, tag: string): seq<seq<byte>> {
    ReadAll(tag, Scan(None, []), Lines(pem)).blocks
  }

  method PemBlocks(pem: string, tag: string) returns (blocks: seq<seq<byte>>)
    ensures blocks == Blocks(pem, tag)
  {
    hide Begin, End, Decode, Lines, Trim;
    var begin, end := Begin(tag), End(tag);
    blocks := [];
    var body: Option<string> := None;
    var lines := Lines(pem);
    var i := 0;
    while i < |lines|
      invariant 0 <= i <= |lines|
      invariant ReadAll(tag, Scan(body, blocks), lines[i..]) == ReadAll(tag, Scan(None, []), lines)
    {
      ghost var scan := Scan(body, blocks);
      var line := Trim(lines[i]);
      if line == begin {
        body := Some("");
      } else if line == end {
        if body.Some? {
          var der := Decode(Standard, body.value);
          if der.Some? {
            blocks := blocks + [der.value];
          }
        }
        body := None;
      } else if body.Some? {
        body := Some(body.value + line);
      }
      assert Scan(body, blocks) == Read(tag, scan, line);
      assert lines[i..][1..] == lines[i + 1..];
      i := i + 1;
    }
  }

  // ---- The reader inverts the printer ---------------------------------------------------

  lemma {:induction false} ReadAppend(tag: string, scan: Scan, a: seq<string>, b: seq<string>)
    ensures ReadAll(tag, scan, a + b) == ReadAll(tag, ReadAll(tag, scan, a), b)
    decreases |a|
  {
    hide Read, Trim;
    if a == [] {
      assert a + b == b;
    } else {
      ReadAppend(tag, Read(tag, scan, Trim(a[0])), a[1..], b);
      assert (a + b)[1..] == a[1..] + b;
    }
  }

  lemma MarkersDiffer(a: string, b: string)
    ensures Begin(a) == Begin(b) <==> a == b
    ensures End(a) == End(b) <==> a == b
    ensures Begin(a) != End(b)
  {
    assert Begin(a)[11..|Begin(a)| - 5] == a && Begin(b)[11..|Begin(b)| - 5] == b;
    assert End(a)[9..|End(a)| - 5] == a && End(b)[9..|End(b)| - 5] == b;
    assert Begin(a)[5] == 'B' && End(b)[5] == 'E';
  }

  lemma MarkersTrim(tag: string)
    ensures Trim(Begin(tag)) == Begin(tag) && Trim(End(tag)) == End(tag)
  {
  }

  lemma MarkersHoldLabel(tag: string)
    requires Free(tag, '\n')
    ensures Free(Begin(tag), '\n') && Free(End(tag), '\n')
  {
  }

  ghost predicate IsChunk(s: string) {
    s != "" && forall i :: 0 <= i < |s| ==> InAlphabet(Standard, s[i])
  }

  lemma ChunkIsNoMarker(s: string, tag: string)
    requires IsChunk(s)
    ensures Trim(s) == s && s != Begin(tag) && s != End(tag) && Free(s, '\n')
  {
    hide InAlphabet, IsSpace;
    forall i | 0 <= i < |s| ensures !IsSpace(s[i]) && s[i] != '-' && s[i] != '\n' {
      AlphabetIsNoSpace(s[i]);
    }
    assert Begin(tag)[0] == '-' && End(tag)[0] == '-';
  }

  lemma AlphabetIsNoSpace(c: char)
    requires InAlphabet(Standard, c)
    ensures !IsSpace(c) && c != '-' && c != '\n'
  {
  }

  ghost predicate AllChunks(chunks: seq<string>) {
    forall i :: 0 <= i < |chunks| ==> IsChunk(chunks[i])
  }

  lemma EncodedChunks(der: seq<byte>)
    ensures AllChunks(Chunks(Encode(Standard, der)))
  {
    hide Encode, Chunks, InAlphabet;
    EncodeAlphabet(Standard, der);
    ChunksOf(Encode(Standard, der));
  }

  lemma {:induction false} ReadChunks(tag: string, scan: Scan, chunks: seq<string>)
    requires AllChunks(chunks)
    ensures ReadAll(tag, scan, chunks)
         == Scan(if scan.body.Some? then Some(scan.body.value + Concat(chunks)) else None, scan.blocks)
    decreases |chunks|
  {
    hide IsChunk, Trim, Begin, End;
    if chunks == [] {
      assert scan.body.Some? ==> scan.body.value + "" == scan.body.value;
    } else {
      ChunkIsNoMarker(chunks[0], tag);
      var next := Read(tag, scan, chunks[0]);
      ReadChunks(tag, next, chunks[1..]);
      if scan.body.Some? {
        var a, b, c := scan.body.value, chunks[0], Concat(chunks[1..]);
        assert (a + b) + c == a + (b + c);
      }
    }
  }

  /** Reading one printed block, with no block open: it is decoded if it has the label and skipped otherwise. */
  lemma ReadBlock(tag: string, blocks: seq<seq<byte>>, der: seq<byte>, its: string)
    ensures ReadAll(tag, Scan(None, blocks), BlockLines(der, its))
         == Scan(None, blocks + if its == tag then [der] else [])
  {
    hide Begin, End, Encode, Decode, Chunks, Trim;
    var start := Scan(None, blocks);
    var chunks := Chunks(Encode(Standard, der));
    MarkersDiffer(its, tag);
    MarkersDiffer(tag, its);
    MarkersTrim(its);
    EncodedChunks(der);
    ChunksOf(Encode(Standard, der));
    DecodeEncode(Standard, der);
    var started := ReadAll(tag, start, [Begin(its)]);
    ReadAppend(tag, start, [Begin(its)], chunks);
    ReadAppend(tag, start, [Begin(its)] + chunks, [End(its)]);
    ReadChunks(tag, started, chunks);
    assert started == if its == tag then Scan(Some(""), blocks) else start;
    assert "" + Encode(Standard, der) == Encode(Standard, der);
    assert blocks + [] == blocks;
  }

  /** What a bundle file can hold: blocks of any label, and other lines. */
  datatype Item = Block(tag: string, der: seq<byte>) | Other(line: string)

  function ItemLines(item: Item): seq<string> {
    match item case Block(tag, der) => BlockLines(der, tag) case Other(line) => [line]
  }

  function BundleLines(items: seq<Item>): seq<string> {
    if items == [] then [] else ItemLines(items[0]) + BundleLines(items[1..])
  }

  function Labelled(items: seq<Item>, tag: string): seq<seq<byte>> {
    if items == [] then []
    else (if items[0].Block? && items[0].tag == tag then [items[0].der] else []) + Labelled(items[1..], tag)
  }

  /** Other lines hold no line break and do not open a block of the label. */
  ghost predicate Plain(item: Item, tag: string) {
    match item
    case Block(its, _) => Free(its, '\n')
    case Other(line) => Free(line, '\n') && Trim(line) != Begin(tag)
  }

  ghost predicate AllPlain(items: seq<Item>, tag: string) {
    forall i :: 0 <= i < |items| ==> Plain(items[i], tag)
  }

  lemma ItemLinesFree(item: Item, tag: string)
    requires Plain(item, tag)
    ensures AllFree(ItemLines(item), '\n')
  {
    hide IsChunk, Begin, End, Encode, Chunks;
    if item.Block? {
      MarkersHoldLabel(item.tag);
      EncodedChunks(item.der);
      var chunks := Chunks(Encode(Standard, item.der));
      forall i | 0 <= i < |chunks| ensures Free(chunks[i], '\n') {
        ChunkIsNoMarker(chunks[i], tag);
      }
    }
  }

  lemma {:induction false} BundleLinesFree(items: seq<Item>, tag: string)
    requires AllPlain(items, tag)
    ensures AllFree(BundleLines(items), '\n')
  {
    hide Plain, ItemLines;
    if items != [] {
      ItemLinesFree(items[0], tag);
      BundleLinesFree(items[1..], tag);
    }
  }

  lemma {:induction false} ReadBundle(tag: string, blocks: seq<seq<byte>>, items: seq<Item>)
    requires AllPlain(items, tag)
    ensures ReadAll(tag, Scan(None, blocks), BundleLines(items)) == Scan(None, blocks + Labelled(items, tag))
    decreases |items|
  {
    hide BlockLines, Begin, End, Trim;
    if items == [] {
      assert blocks + [] == blocks;
    } else {
      var item := items[0];
      ReadAppend(tag, Scan(None, blocks), ItemLines(item), BundleLines(items[1..]));
      var found := if item.Block? && item.tag == tag then [item.der] else [];
      if item.Block? {
        ReadBlock(tag, blocks, item.der, item.tag);
      }
      assert Plain(item, tag);
      assert blocks + [] == blocks;
      assert ReadAll(tag, Scan(None, blocks), ItemLines(item)) == Scan(None, blocks + found);
      ReadBundle(tag, blocks + found, items[1..]);
      assert (blocks + found) + Labelled(items[1..], tag) == blocks + (found + Labelled(items[1..], tag));
    }
  }

  /** Reading a label out of a printed bundle gives exactly that label's byte strings in order,
      whatever blocks of other labels and other lines stand between them. */
  lemma BundleRoundTrip(items: seq<Item>, tag: string)
    requires AllPlain(items, tag)
    ensures Blocks(Unlines(BundleLines(items)), tag) == Labelled(items, tag)
  {
    hide Plain, Lines;
    BundleLinesFree(items, tag);
    LinesUnlines(BundleLines(items), "");
    assert Unlines(BundleLines(items)) + "" == Unlines(BundleLines(items));
    EmptyLines();
    assert BundleLines(items) + [] == BundleLines(items);
    ReadBundle(tag, [], items);
    assert [] + Labelled(items, tag) == Labelled(items, tag);
  }

  /** Indentation and carriage returns do not matter: texts with the same trimmed lines read the same. */
  lemma {:induction false} TrimmedLinesMatter(tag: string, scan: Scan, a: seq<string>, b: seq<string>)
    requires |a| == |b| && forall i :: 0 <= i < |a| ==> Trim(a[i]) == Trim(b[i])
    ensures ReadAll(tag, scan, a) == ReadAll(tag, scan, b)
    decreases |a|
  {
    hide Read, Trim;
    if a != [] {
      TrimmedLinesMatter(tag, Read(tag, scan, Trim(a[0])), a[1..], b[1..]);
    }
  }

  // ---- The issuer's bundle ------------------------------------------------------------------

  datatype IssuerPki = IssuerPki(trustAnchor: seq<byte>, leaf: seq<byte>, mdocSigner: seq<byte>,
                                 mdocStatusSigner: seq<byte>, crl: seq<byte>)

  function ToPem(pki: IssuerPki): string {
    PemText(pki.leaf, "CERTIFICATE") + PemText(pki.mdocSigner, "CERTIFICATE")
    + PemText(pki.mdocStatusSigner, "CERTIFICATE") + PemText(pki.trustAnchor, "CERTIFICATE")
    + PemText(pki.crl, "X509 CRL")
  }

  /** The certificate certifies the issuer's key. */
  function FromDer(lib: CertLibrary<seq<byte>>, der: seq<byte>, publicKey: string): Result<seq<byte>, X509Error> {
    match lib.parse(der)
    case None => Err(InvalidCertificate)
    case Some(cert) => if cert.publicKey != publicKey then Err(KeyMismatch) else Ok(der)
  }

  /** Load a bundle. `clock` gives the three readings of the time, one for each leaf's chain. */
  function FromPem(lib: CertLibrary<seq<byte>>, pem: string, publicKey: string, clock: nat -> int)
    : Result<IssuerPki, X509Error>
  {
    var certs := Blocks(pem, "CERTIFICATE");
    if |certs| != 4 then Err(InvalidPem)
    else
      var crls := Blocks(pem, "X509 CRL");
      if crls == [] then Err(InvalidPem)
      else
        var leaf :- FromDer(lib, certs[0], publicKey);
        var mdocSigner :- FromDer(lib, certs[1], publicKey);
        var mdocStatusSigner :- FromDer(lib, certs[2], publicKey);
        var pki := IssuerPki(certs[3], leaf, mdocSigner, mdocStatusSigner, crls[0]);
        var _ :- ValidateChain(lib, [leaf], [pki.trustAnchor], clock(0));
        var _ :- ValidateChain(lib, [mdocSigner], [pki.trustAnchor], clock(1));
        var _ :- ValidateChain(lib, [mdocStatusSigner], [pki.trustAnchor], clock(2));
        Ok(pki)
  }

  /** A leaf certifies the key and chains to the bundled anchor at that time. */
  ghost predicate GoodLeaf(lib: CertLibrary<seq<byte>>, der: seq<byte>, anchor: seq<byte>, publicKey: string, at: int) {
    && lib.parse(der).Some? && lib.parse(der).value.publicKey == publicKey
    && ValidateChain(lib, [der], [anchor], at).Ok?
  }

  ghost predicate GoodPki(lib: CertLibrary<seq<byte>>, pki: IssuerPki, publicKey: string, clock: nat -> int) {
    && GoodLeaf(lib, pki.leaf, pki.trustAnchor, publicKey, clock(0))
    && GoodLeaf(lib, pki.mdocSigner, pki.trustAnchor, publicKey, clock(1))
    && GoodLeaf(lib, pki.mdocStatusSigner, pki.trustAnchor, publicKey, clock(2))
  }

  lemma LoadedIsGood(lib: CertLibrary<seq<byte>>, pem: string, publicKey: string, clock: nat -> int)
    requires FromPem(lib, pem, publicKey, clock).Ok?
    ensures GoodPki(lib, FromPem(lib, pem, publicKey, clock).value, publicKey, clock)
  {
  }

  /** The certificate is for another key. */
  predicate OtherKey(lib: CertLibrary<seq<byte>>, der: seq<byte>, publicKey: string) {
    lib.parse(der).Some? && lib.parse(der).value.publicKey != publicKey
  }

  /** Whatever the text: a bundle loads iff it has exactly four certificates, of which the first three are
      good leaves under the fourth, and at least one revocation list, whose first it keeps; it is no bundle
      at all iff a count is wrong. */
  lemma LoadsIff(lib: CertLibrary<seq<byte>>, pem: string, publicKey: string, clock: nat -> int, pki: IssuerPki)
    ensures FromPem(lib, pem, publicKey, clock) == Ok(pki) <==>
            && Blocks(pem, "CERTIFICATE") == [pki.leaf, pki.mdocSigner, pki.mdocStatusSigner, pki.trustAnchor]
            && Blocks(pem, "X509 CRL") != [] && Blocks(pem, "X509 CRL")[0] == pki.crl
            && GoodPki(lib, pki, publicKey, clock)
    ensures FromPem(lib, pem, publicKey, clock) == Err(InvalidPem) <==>
            |Blocks(pem, "CERTIFICATE")| != 4 || Blocks(pem, "X509 CRL") == []
    ensures FromPem(lib, pem, publicKey, clock) == Err(KeyMismatch) ==>
            exists i :: 0 <= i < 3 && i < |Blocks(pem, "CERTIFICATE")|
                        && OtherKey(lib, Blocks(pem, "CERTIFICATE")[i], publicKey)
    ensures |Blocks(pem, "CERTIFICATE")| == 4 && Blocks(pem, "X509 CRL") != []
            && OtherKey(lib, Blocks(pem, "CERTIFICATE")[0], publicKey) ==>
              FromPem(lib, pem, publicKey, clock) == Err(KeyMismatch)
  {
    hide Blocks, ValidateChain;
    var certs := Blocks(pem, "CERTIFICATE");
    forall i, at | 0 <= i < |certs| && |certs| == 4 && ValidateChain(lib, [certs[i]], [certs[3]], at).Err?
      ensures ValidateChain(lib, [certs[i]], [certs[3]], at).error !in {InvalidPem, KeyMismatch}
    {
      RefusalKinds(lib, [certs[i]], [certs[3]], at);
    }
  }

  function PkiItems(pki: IssuerPki): seq<Item> {
    [Block("CERTIFICATE", pki.leaf), Block("CERTIFICATE", pki.mdocSigner), Block("CERTIFICATE", pki.mdocStatusSigner),
     Block("CERTIFICATE", pki.trustAnchor), Block("X509 CRL", pki.crl)]
  }

  lemma {:induction false} UnlinesConcat(a: seq<string>, b: seq<string>)
    ensures Unlines(a + b) == Unlines(a) + Unlines(b)
  {
    if a == [] {
      assert a + b == b;
    } else {
      UnlinesConcat(a[1..], b);
      assert (a + b)[1..] == a[1..] + b;
      var x, y, z := a[0] + ['\n'], Unlines(a[1..]), Unlines(b);
      assert x + (y + z) == (x + y) + z;
    }
  }

  lemma BundleStep(der: seq<byte>, tag: string, rest: seq<Item>)
    ensures Unlines(BundleLines([Block(tag, der)] + rest)) == PemText(der, tag) + Unlines(BundleLines(rest))
  {
    hide BlockLines;
    assert ([Block(tag, der)] + rest)[1..] == rest;
    UnlinesConcat(BlockLines(der, tag), BundleLines(rest));
  }

  lemma PkiText(pki: IssuerPki)
    ensures ToPem(pki) == Unlines(BundleLines(PkiItems(pki)))
  {
    hide PemText, BundleLines, Unlines;
    var items := PkiItems(pki);
    BundleStep(pki.leaf, "CERTIFICATE", items[1..]);
    BundleStep(pki.mdocSigner, "CERTIFICATE", items[2..]);
    BundleStep(pki.mdocStatusSigner, "CERTIFICATE", items[3..]);
    BundleStep(pki.trustAnchor, "CERTIFICATE", items[4..]);
    BundleStep(pki.crl, "X509 CRL", []);
    EmptyBundle();
    assert items == [items[0]] + items[1..];
    assert items[1..] == [items[1]] + items[2..];
    assert items[2..] == [items[2]] + items[3..];
    assert items[3..] == [items[3]] + items[4..];
    assert items[4..] == [items[4]] + [];
  }

  lemma EmptyBundle()
    ensures Unlines(BundleLines([])) == ""
  {
  }

  lemma PkiBlocks(pki: IssuerPki)
    ensures Blocks(ToPem(pki), "CERTIFICATE") == [pki.leaf, pki.mdocSigner, pki.mdocStatusSigner, pki.trustAnchor]
    ensures Blocks(ToPem(pki), "X509 CRL") == [pki.crl]
  {
    hide Blocks, ToPem, BundleLines;
    PkiText(pki);
    BundleRoundTrip(PkiItems(pki), "CERTIFICATE");
    BundleRoundTrip(PkiItems(pki), "X509 CRL");
    PkiLabels(pki, "CERTIFICATE");
    PkiLabels(pki, "X509 CRL");
    TagsDiffer();
  }

  lemma LabelledStep(item: Item, rest: seq<Item>, tag: string)
    ensures Labelled([item] + rest, tag) == (if item.Block?
                                                && item.tag == tag then [item.der] else []) + Labelled(rest, tag)
  {
  }

  lemma PkiLabels(pki: IssuerPki, tag: string)
    ensures Labelled(PkiItems(pki), tag)
         == (if tag == "CERTIFICATE" then [pki.leaf, pki.mdocSigner, pki.mdocStatusSigner, pki.trustAnchor] else [])
            + (if tag == "X509 CRL" then [pki.crl] else [])
  {
    hide Labelled;
    var items := PkiItems(pki);
    LabelledStep(items[4], [], tag);
    LabelledStep(items[3], items[4..], tag);
    LabelledStep(items[2], items[3..], tag);
    LabelledStep(items[1], items[2..], tag);
    LabelledStep(items[0], items[1..], tag);
    NothingLabelled(tag);
    assert items == [items[0]] + items[1..];
    assert items[1..] == [items[1]] + items[2..];
    assert items[2..] == [items[2]] + items[3..];
    assert items[3..] == [items[3]] + items[4..];
    assert items[4..] == [items[4]] + [];
    TagsDiffer();
  }

  lemma NothingLabelled(tag: string)
    ensures Labelled([], tag) == []
  {
  }

  lemma TagsDiffer()
    ensures "CERTIFICATE" != "X509 CRL"
  {
  }

  /** A written bundle loads back, every field restored, iff each leaf certifies the key and chains
      to the bundled anchor when it is loaded; otherwise loading fails. */
  lemma PkiRoundTrip(lib: CertLibrary<seq<byte>>, pki: IssuerPki, publicKey: string, clock: nat -> int)
    ensures FromPem(lib, ToPem(pki), publicKey, clock).Ok? <==> GoodPki(lib, pki, publicKey, clock)
    ensures GoodPki(lib, pki, publicKey, clock) ==> FromPem(lib, ToPem(pki), publicKey, clock) == Ok(pki)
  {
    hide Blocks, ToPem, ValidateChain;
    PkiBlocks(pki);
  }
}
