/** Call data too large for one transaction: stored in a file in two parts, at a cost estimated beforehand. */
module FileServiceModel {
  import opened Wrappers
  import opened HexText

  const FILE_CREATE_PER_5_KB := 9.51
  const FILE_APPEND_PER_5_KB := 9.55
  const FILE_APPEND_BASE_FEE := 3.9
  const FILE_APPEND_RATE_PER_BYTE := 0.0011

  /******* The fee estimate, in cents before the exchange rate and rounding *******/

  function EstimateFileTransactionsFee(size: nat, chunk: nat): real
    requires chunk > 0
  {
    FILE_CREATE_PER_5_KB + FILE_APPEND_PER_5_KB * (size / chunk - 1) as real
    + (FILE_APPEND_BASE_FEE + (size % chunk) as real * FILE_APPEND_RATE_PER_BYTE)
  }

  // The appends one by one: full chunks, then what is left.
  function AppendCost(size: nat, chunk: nat): real
    requires chunk > 0
  {
    if size == 0 then 0.0
    else if size >= chunk then FILE_APPEND_PER_5_KB + AppendCost(size - chunk, chunk)
    else FILE_APPEND_BASE_FEE + size as real * FILE_APPEND_RATE_PER_BYTE
  }

  function TransactionsCost(size: nat, chunk: nat): real
    requires chunk > 0
  {
    FILE_CREATE_PER_5_KB + if size > chunk then AppendCost(size - chunk, chunk) else 0.0
  }

  lemma DivModStep(size: nat, chunk: nat)
    requires chunk > 0 && size >= chunk
    ensures size / chunk == (size - chunk) / chunk + 1 && size % chunk == (size - chunk) % chunk
  {
    var q, r := (size - chunk) / chunk, (size - chunk) % chunk;
    assert size == q * chunk + r + chunk == (q + 1) * chunk + r;
    Unique(size, chunk, q + 1, r);
  }

  lemma Unique(n: nat, d: nat, q: nat, r: nat)
    requires d > 0 && r < d && n == q * d + r
    ensures n / d == q && n % d == r
  {
    SameQuotient(d, q, r, n / d, n % d);
  }

  lemma SameQuotient(d: nat, q: nat, r: nat, q': nat, r': nat)
    requires r < d && r' < d && q * d + r == q' * d + r'
    ensures q == q' && r == r'
  {
    if q < q' {
      AtLeast(q' - q, d);
    } else if q' < q {
      AtLeast(q - q', d);
    }
  }

  lemma AtLeast(k: nat, d: nat)
    requires k >= 1
    ensures k * d >= d
  {
    assert k * d == d + (k - 1) * d;
  }

  lemma {:induction false} AppendCostClosed(size: nat, chunk: nat)
    requires chunk > 0
    ensures AppendCost(size, chunk) == FILE_APPEND_PER_5_KB * (size / chunk) as real
              + if size % chunk == 0 then 0.0
                else FILE_APPEND_BASE_FEE + (size % chunk) as real * FILE_APPEND_RATE_PER_BYTE
  {
    if size >= chunk {
      DivModStep(size, chunk);
      AppendCostClosed(size - chunk, chunk);
    } else {
      Unique(size, chunk, 0, size);
    }
  }

  // From one full chunk on, the estimate is the cost of the transactions, plus one base fee when there is no
  // partial chunk.
  lemma EstimateExact(size: nat, chunk: nat)
    requires chunk > 0 && size >= chunk
    ensures EstimateFileTransactionsFee(size, chunk) ==
            TransactionsCost(size, chunk) + if size % chunk == 0 then FILE_APPEND_BASE_FEE else 0.0
  {
    DivModStep(size, chunk);
    AppendCostClosed(size - chunk, chunk);
  }

  // The estimate never falls short, except for a file that fits in its first transaction with room to spare.
  lemma EstimateConservativeIff(size: nat, chunk: nat)
    requires chunk > 0
    ensures EstimateFileTransactionsFee(size, chunk) >= TransactionsCost(size, chunk) <==>
            size >= chunk || 11 * size >= 56500
  {
    if size >= chunk {
      EstimateExact(size, chunk);
    } else {
      Unique(size, chunk, 0, size);
    }
  }

  /******* The file *******/

  // The contents of the file: the part it is created with, and the part appended to it.
  function TwoParts(hex: string, chunk: nat, append: bool): string {
    var cut := if chunk < |hex| then chunk else |hex|;
    hex[..cut] + if append then hex[cut..] else ""
  }

  // The append happens if the call data, not its hexadecimal text, is longer than a chunk.
  function Uploaded(callData: seq<byte>, chunk: nat): string {
    TwoParts(Encode(callData), chunk, |callData| > chunk)
  }

  // Nothing is lost, unless the hexadecimal text is longer than a chunk and the call data is not.
  lemma UploadedIff(callData: seq<byte>, chunk: nat)
    ensures Decode(Uploaded(callData, chunk)) == Some(callData) <==> !(|callData| <= chunk < 2 * |callData|)
  {
    if |callData| <= chunk < 2 * |callData| {
      UploadedShort(callData, chunk);
    } else {
      UploadedWhole(callData, chunk);
      DecodeEncode(callData);
    }
  }

  lemma PartsWhole(hex: string, chunk: nat, append: bool)
    requires append || |hex| <= chunk
    ensures TwoParts(hex, chunk, append) == hex
  {
  }

  lemma UploadedWhole(callData: seq<byte>, chunk: nat)
    requires !(|callData| <= chunk < 2 * |callData|)
    ensures Uploaded(callData, chunk) == Encode(callData)
  {
    PartsWhole(Encode(callData), chunk, |callData| > chunk);
  }

  lemma UploadedShort(callData: seq<byte>, chunk: nat)
    requires |callData| <= chunk < 2 * |callData|
    ensures Decode(Uploaded(callData, chunk)) != Some(callData)
  {
    var up := Uploaded(callData, chunk);
    assert |up| == chunk;
    if Decode(up).Some? {
      DecodeLength(up);
    }
  }

  lemma {:induction false} DecodeLength(text: string)
    requires Decode(text).Some?
    ensures |text| == 2 * |Decode(text).value|
    decreases |text|
  {
    if text != [] {
      DecodeLength(text[2..]);
    }
  }

  datatype Outcome =
    | Submitted(inline: seq<byte>, file: Option<nat>)
    | RateLimited
    | EmptyFile
    | NoFile

  class SdkClient {
    const chunk: nat
    var files: map<nat, string>
    var nextFile: nat

    constructor (chunk: nat)
      requires chunk > 0
      ensures this.chunk == chunk && files == map[] && nextFile == 0
    {
      this.chunk := chunk;
      files, nextFile := map[], 0;
    }

    // `limited` is the verdict of the rate limiter on an estimate, `accepted` whether the receipt names a file.
    method CreateFile(callData: seq<byte>, limited: real -> bool, accepted: bool) returns (r: Outcome)
      requires chunk > 0
      modifies this
      ensures r == if limited(EstimateFileTransactionsFee(2 * |callData|, chunk)) then RateLimited
                   else if !accepted then NoFile
                   else if callData == [] then EmptyFile
                   else Submitted([], Some(old(nextFile)))
      ensures files == if r.Submitted? || r.EmptyFile?
                       then old(files)[old(nextFile) := Uploaded(callData, chunk)] else old(files)
    {
      var hexedCallData := Encode(callData);
      if limited(EstimateFileTransactionsFee(|hexedCallData|, chunk)) {
        return RateLimited;
      }
      if !accepted {
        return NoFile;
      }
      var fileId := nextFile;
      nextFile := nextFile + 1;
      var cut := if chunk < |hexedCallData| then chunk else |hexedCallData|;
      files := files[fileId := hexedCallData[..cut]];
      if |callData| > chunk {
        files := files[fileId := files[fileId] + hexedCallData[cut..]];
      } else {
        assert hexedCallData[..cut] + "" == hexedCallData[..cut];
      }
      assert files[fileId] == Uploaded(callData, chunk);
      assert files == old(files)[fileId := files[fileId]];
      assert |files[fileId]| >= cut;
      if files[fileId] == "" {
        return EmptyFile;
      }
      return Submitted([], Some(fileId));
    }

    // A transaction that is submitted carries its call data, or names a file whose contents are the call data.
    method SubmitEthereumTransaction(callData: seq<byte>, jumbo: bool, limited: real -> bool, accepted: bool)
        returns (r: Outcome)
      requires chunk > 0
      modifies this
      ensures r.Submitted? && r.file.None? ==> r.inline == callData && files == old(files)
      ensures r.Submitted? && r.file.Some? ==>
                r.inline == [] && r.file.value in files && Decode(files[r.file.value]) == Some(callData)
      ensures jumbo || |callData| <= chunk ==> r.Submitted? && r.file.None?
      ensures !jumbo && |callData| > chunk ==>
                r == if limited(EstimateFileTransactionsFee(2 * |callData|, chunk)) then RateLimited
                     else if !accepted then NoFile else Submitted([], Some(old(nextFile)))
    {
      if jumbo || |callData| <= chunk {
        return Submitted(callData, None);
      }
      UploadedIff(callData, chunk);
      r := CreateFile(callData, limited, accepted);
    }
  }
}
