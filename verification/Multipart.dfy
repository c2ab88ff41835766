/**
 The resumable multipart upload of internal/checkpoint/mirror.go: a writer that cuts whatever it is given into
 parts of one size, and sends a part only when the upload does not already hold it from an earlier attempt.
 */
module Multipart {

  type Bytes = seq<bv8>
  type Digest = nat

  datatype PartInfo = PartInfo(number: nat, size: nat, sha256: Digest, etag: nat)

  /** Equal size and digest mean equal bytes. */
  ghost predicate CollisionFree(digest: Bytes -> Digest) {
    forall a: Bytes, b: Bytes :: |a| == |b| && digest(a) == digest(b) ==> a == b
  }

  /** The concatenation of a list of blocks. */
  function Flat(blocks: seq<Bytes>): Bytes {
    if blocks == [] then [] else Flat(blocks[..|blocks| - 1]) + blocks[|blocks| - 1]
  }

  /** The blocks cut data into pieces of exactly n bytes, of which only the last may be shorter, and none empty. */
  ghost predicate Cuts(blocks: seq<Bytes>, data: Bytes, n: nat) {
    && Flat(blocks) == data
    && (forall k | 0 <= k < |blocks| :: 0 < |blocks[k]| <= n)
    && (forall k | 0 <= k < |blocks| - 1 :: |blocks[k]| == n)
  }

  lemma {:induction false} FlatOfFull(blocks: seq<Bytes>, n: nat)
    requires forall k | 0 <= k < |blocks| :: |blocks[k]| == n
    ensures |Flat(blocks)| == n * |blocks|
  {
    if blocks != [] {
      FlatOfFull(blocks[..|blocks| - 1], n);
    }
  }

  lemma CutsLength(blocks: seq<Bytes>, data: Bytes, n: nat)
    requires Cuts(blocks, data, n) && blocks != []
    ensures n * (|blocks| - 1) < |data| <= n * |blocks|
  {
    FlatOfFull(blocks[..|blocks| - 1], n);
  }

  /** There is only one way to cut data, so two uploads of the same bytes name the same parts, reused or not. */
  lemma {:induction false} CutIsUnique(a: seq<Bytes>, b: seq<Bytes>, data: Bytes, n: nat)
    requires Cuts(a, data, n) && Cuts(b, data, n)
    ensures a == b
  {
    if a != [] { CutsLength(a, data, n); }
    if b != [] { CutsLength(b, data, n); }
    if a != [] && b != [] {
      assert |a| == |b| by {
        if |a| < |b| { Stretch(n, |a|, |b| - 1); }
        if |b| < |a| { Stretch(n, |b|, |a| - 1); }
      }
      var m := |a| - 1;
      FlatOfFull(a[..m], n);
      FlatOfFull(b[..m], n);
      assert data[..n * m] == Flat(a[..m]) == Flat(b[..m]);
      assert data[n * m..] == a[m] == b[m];
      CutIsUnique(a[..m], b[..m], data[..n * m], n);
      assert a == a[..m] + [a[m]] && b == b[..m] + [b[m]];
    }
  }

  lemma Stretch(n: nat, p: nat, q: nat)
    requires p <= q
    ensures n * p <= n * q
  {
  }

  // ---------------------------------------------------------------- the store's side

  /** The upload holds these blocks under the numbers 1, 2, ... and the parts describe them truly. */
  ghost predicate Holds(held: map<nat, Bytes>, digest: Bytes -> Digest, parts: seq<PartInfo>, blocks: seq<Bytes>) {
    && |parts| == |blocks|
    && forall k | 0 <= k < |blocks| :: HoldsAt(held, digest, parts[k], k + 1, blocks[k])
  }

  ghost predicate HoldsAt(held: map<nat, Bytes>, digest: Bytes -> Digest, part: PartInfo, number: nat, block: Bytes) {
    && number in held && held[number] == block
    && part.number == number && part.size == |block| && part.sha256 == digest(block)
  }

  /** Storing the next number leaves the parts already sent as they are. */
  lemma HoldsMore(held: map<nat, Bytes>, digest: Bytes -> Digest, parts: seq<PartInfo>, blocks: seq<Bytes>,
                  part: PartInfo, block: Bytes)
    requires Holds(held, digest, parts, blocks)
    requires part.number == |parts| + 1 && part.size == |block| && part.sha256 == digest(block)
    ensures Holds(held[|parts| + 1 := block], digest, parts + [part], blocks + [block])
  {
    var h := held[|parts| + 1 := block];
    forall k | 0 <= k < |blocks| + 1
      ensures HoldsAt(h, digest, (parts + [part])[k], k + 1, (blocks + [block])[k])
    {
      assert k < |blocks| ==> HoldsAt(held, digest, parts[k], k + 1, blocks[k]);
    }
  }

  /** Whatever is stored under the next number, the parts already sent are as they were. */
  lemma HoldsStill(held: map<nat, Bytes>, digest: Bytes -> Digest, parts: seq<PartInfo>, blocks: seq<Bytes>, block: Bytes)
    requires Holds(held, digest, parts, blocks)
    ensures Holds(held[|parts| + 1 := block], digest, parts, blocks)
  {
    forall k | 0 <= k < |blocks| ensures HoldsAt(held[|parts| + 1 := block], digest, parts[k], k + 1, blocks[k]) {
      assert HoldsAt(held, digest, parts[k], k + 1, blocks[k]);
    }
  }

  /** Every listed part from the given number on is held, with the size and digest listed for it. */
  ghost predicate Honest(held: map<nat, Bytes>, digest: Bytes -> Digest, listed: map<nat, PartInfo>, from: nat) {
    forall n <- listed | n >= from ::
      n in held && listed[n].size == |held[n]| && listed[n].sha256 == digest(held[n])
  }

  /** The listing names a part of this number with this block's size and digest. */
  predicate Reusable(digest: Bytes -> Digest, listed: map<nat, PartInfo>, n: nat, block: Bytes) {
    n in listed && listed[n].size == |block| && listed[n].sha256 == digest(block)
  }

  /** A listed part of the right size and digest is the very part wanted. */
  lemma ReusedIsSame(held: map<nat, Bytes>, digest: Bytes -> Digest, listed: map<nat, PartInfo>, n: nat, block: Bytes)
    requires CollisionFree(digest) && Honest(held, digest, listed, n)
    requires Reusable(digest, listed, n, block)
    ensures n in held && held[n] == block && held[n := block] == held
  {
  }

  /** How sending a part ends: taken, refused, or stored although the call reported an error. */
  datatype Receipt = Taken | Refused | Unanswered

  /** One multipart upload in the object store: the parts received so far, from this attempt or an earlier one. */
  class Upload {
    var held: map<nat, Bytes>
    const digest: Bytes -> Digest

    constructor (digest: Bytes -> Digest)
      ensures this.digest == digest && held == map[]
    {
      this.digest := digest;
      held := map[];
    }

    /** ListParts, with whatever entity tags the store keeps. */
    method ListParts(etags: nat -> nat) returns (listed: map<nat, PartInfo>)
      ensures Honest(held, digest, listed, 0)
    {
      listed := map n | n in held :: PartInfo(n, |held[n]|, digest(held[n]), etags(n));
    }

    /** UploadPart: it stores the whole part or nothing, and an error does not say which. */
    method UploadPart(number: nat, data: Bytes, receipt: Receipt, etag: nat) returns (ok: bool, part: PartInfo)
      modifies this
      ensures ok <==> receipt.Taken?
      ensures held == if receipt.Refused? then old(held) else old(held)[number := data]
      ensures part == PartInfo(number, |data|, digest(data), etag)
    {
      if !receipt.Refused? { held := held[number := data]; }
      return receipt.Taken?, PartInfo(number, |data|, digest(data), etag);
    }
  }

  // ---------------------------------------------------------------- multipartChunkWriter

  class MultipartWriter {
    const upload: Upload
    const partSize: nat
    const existing: map<nat, PartInfo>
    var buffer: Bytes
    var parts: seq<PartInfo>
    var nextPart: nat
    ghost var sent: seq<Bytes>

    /** The finished parts are held and truly described; what is left from an earlier attempt is as listed. */
    ghost predicate Consistent()
      reads this, upload
    {
      Holds(upload.held, upload.digest, parts, sent) && Honest(upload.held, upload.digest, existing, |parts| + 1)
    }

    ghost predicate Valid()
      reads this, upload
    {
      && Consistent() && nextPart == |parts| && |buffer| < partSize
      && forall k | 0 <= k < |sent| :: |sent[k]| == partSize
    }

    /** All that has been written so far: the finished parts and the buffer. */
    ghost function Content(): Bytes
      reads this
    {
      Flat(sent) + buffer
    }

    constructor (upload: Upload, partSize: nat, existing: map<nat, PartInfo>)
      requires partSize > 0 && Honest(upload.held, upload.digest, existing, 0)
      ensures Valid() && sent == [] && buffer == []
      ensures this.upload == upload && this.partSize == partSize && this.existing == existing
    {
      this.upload := upload;
      this.partSize := partSize;
      this.existing := existing;
      buffer, parts, nextPart, sent := [], [], 0, [];
    }

    /** flushPart: the buffer becomes the next part, reused if the upload already holds it. */
    method FlushPart(receipts: nat -> Receipt, etag: nat) returns (ok: bool)
      requires CollisionFree(upload.digest) && nextPart == |parts| && Consistent()
      modifies this, upload
      ensures Holds(upload.held, upload.digest, parts, sent) && (ok ==> Consistent()) && nextPart == old(nextPart) + 1
      ensures old(upload.held).Keys <= upload.held.Keys
      ensures ok ==> |parts| == nextPart && buffer == [] && sent == old(sent) + [old(buffer)]
      ensures !ok ==> && parts == old(parts) && buffer == old(buffer) && sent == old(sent)
                      && (upload.held == old(upload.held) || upload.held == old(upload.held)[nextPart := buffer])
      ensures ok <==> Reusable(upload.digest, existing, nextPart, old(buffer)) || receipts(nextPart).Taken?
      ensures ok ==> parts[..nextPart - 1] == old(parts)
      ensures if Reusable(upload.digest, existing, nextPart, old(buffer))
              then upload.held == old(upload.held) && parts[nextPart - 1].etag == existing[nextPart].etag
              else ok ==> upload.held == old(upload.held)[nextPart := old(buffer)] && parts[nextPart - 1].etag == etag
    {
      nextPart := nextPart + 1;
      var data := buffer;
      var sha256 := upload.digest(data);
      var part;
      if nextPart in existing && existing[nextPart].size == |data| && existing[nextPart].sha256 == sha256 {
        ReusedIsSame(upload.held, upload.digest, existing, nextPart, data);
        part := existing[nextPart];
      } else {
        ok, part := upload.UploadPart(nextPart, data, receipts(nextPart), etag);
        if !ok {
          HoldsStill(old(upload.held), upload.digest, parts, sent, data);
          return false;
        }
      }
      part := part.(number := nextPart, size := |data|, sha256 := sha256);
      HoldsMore(old(upload.held), upload.digest, parts, sent, part, data);
      parts := parts + [part];
      sent := sent + [data];
      buffer := [];
      return true;
    }

    /** One turn of Write's loop: fill the buffer, and flush it if it is full. */
    method TakeSome(rest: Bytes, receipts: nat -> Receipt, etag: nat) returns (count: nat, ok: bool)
      requires CollisionFree(upload.digest) && Valid() && |rest| > 0
      modifies this, upload
      ensures 0 < count <= |rest| && Holds(upload.held, upload.digest, parts, sent)
      ensures old(upload.held).Keys <= upload.held.Keys
      ensures Content() == old(Content()) + rest[..count]
      ensures ok ==> Valid()
      ensures (forall k: nat :: receipts(k).Taken?) ==> ok
    {
      var remaining := partSize - |buffer|;
      count := |rest|;
      if count > remaining { count := remaining; }
      Refilled(Flat(sent), buffer, rest[..count]);
      buffer := buffer + rest[..count];
      ok := true;
      if |buffer| == partSize {
        FlatMore(sent, buffer);
        ok := FlushPart(receipts, etag);
      }
    }

    /** Write: takes as much as fits, part by part. live(k) says whether the context is still live with k bytes to go. */
    method Write(value: Bytes, live: nat -> bool, receipts: nat -> Receipt, etag: nat) returns (total: nat, ok: bool)
      requires CollisionFree(upload.digest) && Valid()
      modifies this, upload
      ensures total <= |value| && Holds(upload.held, upload.digest, parts, sent)
      ensures old(upload.held).Keys <= upload.held.Keys
      ensures Content() == old(Content()) + value[..total]
      ensures ok ==> Valid() && total == |value|
      ensures (forall k: nat :: live(k)) && (forall k: nat :: receipts(k).Taken?) ==> ok
    {
      total := 0;
      var rest := value;
      while |rest| > 0
        invariant Valid()
        invariant total <= |value| && rest == value[total..]
        invariant Content() == old(Content()) + value[..total]
        invariant old(upload.held).Keys <= upload.held.Keys
      {
        if !live(|rest|) { return total, false; }
        var count, taken := TakeSome(rest, receipts, etag);
        Appended(old(Content()), value, total, count);
        total := total + count;
        rest := rest[count..];
        if !taken { return total, false; }
      }
      return total, true;
    }

    /** Close: the last, short part, if any bytes are left. */
    method Close(receipts: nat -> Receipt, etag: nat) returns (ok: bool)
      requires CollisionFree(upload.digest) && Valid()
      modifies this, upload
      ensures Holds(upload.held, upload.digest, parts, sent) && Content() == old(Content())
      ensures old(upload.held).Keys <= upload.held.Keys
      ensures ok ==> buffer == [] && Cuts(sent, old(Content()), partSize)
      ensures (forall k: nat :: receipts(k).Taken?) ==> ok
    {
      if |buffer| == 0 {
        assert Content() == Flat(sent);
        return true;
      }
      FlatMore(sent, buffer);
      ok := FlushPart(receipts, etag);
    }
  }

  lemma FlatMore(blocks: seq<Bytes>, block: Bytes)
    ensures Flat(blocks + [block]) + [] == Flat(blocks) + block
  {
    assert (blocks + [block])[..|blocks|] == blocks;
  }

  lemma Refilled(flushed: Bytes, buffer: Bytes, more: Bytes)
    ensures flushed + (buffer + more) == flushed + buffer + more
  {
  }

  lemma Appended(start: Bytes, value: Bytes, total: nat, count: nat)
    requires total + count <= |value|
    ensures start + value[..total] + value[total..][..count] == start + value[..total + count]
  {
    assert value[..total + count] == value[..total] + value[total..][..count];
  }

  // ---------------------------------------------------------------- putMultipart

  /**
   putMultipart over an upload that may hold anything from earlier attempts, fed by any sequence of reads:
   on success the parts handed over to be completed are numbered 1..n, describe what the upload holds, and
   cut exactly the bytes read.
   */
  method PutMultipart(upload: Upload, partSize: nat, pieces: seq<Bytes>, live: nat -> bool, receipts: nat -> Receipt, etags: nat -> nat)
    returns (ok: bool, parts: seq<PartInfo>, ghost blocks: seq<Bytes>)
    requires partSize > 0 && CollisionFree(upload.digest)
    modifies upload
    ensures old(upload.held).Keys <= upload.held.Keys
    ensures ok ==> Holds(upload.held, upload.digest, parts, blocks) && Cuts(blocks, Flat(pieces), partSize)
    ensures (forall k: nat :: live(k)) && (forall k: nat :: receipts(k).Taken?) ==> ok
  {
    blocks := [];
    var listed := upload.ListParts(etags);
    var writer := new MultipartWriter(upload, partSize, listed);
    var i := 0;
    while i < |pieces|
      invariant i <= |pieces| && writer.upload == upload && writer.partSize == partSize
      invariant writer.Valid() && writer.Content() == Flat(pieces[..i])
      invariant fresh(writer)
      invariant old(upload.held).Keys <= upload.held.Keys
    {
      var total, wrote := writer.Write(pieces[i], live, receipts, etags(i));
      if !wrote { return false, [], []; }
      assert pieces[..i + 1][..i] == pieces[..i];
      i := i + 1;
    }
    assert pieces[..i] == pieces;
    ok := writer.Close(receipts, etags(i));
    parts, blocks := writer.parts, writer.sent;
  }

  /** A resumed upload and a fresh one of the same bytes end with the same blocks and the same part list, entity tags apart. */
  lemma ResumedIsFresh(resumed: map<nat, Bytes>, afresh: map<nat, Bytes>, digest: Bytes -> Digest,
                       ps: seq<PartInfo>, qs: seq<PartInfo>, a: seq<Bytes>, b: seq<Bytes>, data: Bytes, n: nat)
    requires Holds(resumed, digest, ps, a) && Cuts(a, data, n)
    requires Holds(afresh, digest, qs, b) && Cuts(b, data, n)
    ensures a == b && |ps| == |qs| && forall k | 0 <= k < |ps| :: ps[k] == qs[k].(etag := ps[k].etag)
  {
    CutIsUnique(a, b, data, n);
    forall k | 0 <= k < |ps| ensures ps[k] == qs[k].(etag := ps[k].etag) {
      assert HoldsAt(resumed, digest, ps[k], k + 1, a[k]) && HoldsAt(afresh, digest, qs[k], k + 1, b[k]);
    }
  }
}
