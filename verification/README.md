# Verification of xfsgo

A Dafny model of the hard parts of the xfsgo node, with proofs. Five components are covered.

**Curve arithmetic** (the bundled libsecp256k1). Field elements in five 52-bit limbs and in ten 26-bit
limbs, with every accumulator bound; normalisation, inversion and square root by addition chains, with the primality of the modulus and of the
group order proved by certificates (`Primes`, `Certificates`, `FieldPrime`, `OrderPrime`); scalar inversion; the
three scalar multiplications (interleaved wNAF, constant-time wNAF, blinded comb); ECDSA signing and
verifying after sections 4.1.3 and 4.1.4 of SEC 1; DER after sections 8.1.3 and 8.3 of ITU-T X.690, strict
and lax (`DerGrammar` gives both languages as grammars). Points are elements of an abstract abelian group in which every element is killed by the order n
of section 2.7.1 of SEC 2, with a generator of exact order n, an endomorphism that multiplies by lambda,
and an x-coordinate shared by a point and its negative. `CurveModel` shows that these assumptions can be
met together. Splitting a scalar by lambda (`LambdaSplit`) and inversion modulo n (`ScalarInverse`) are
proved, not assumed.

**The AVL Merkle tree.** First as a value (`AvlTree`), then on the heap (`MerkleTree`): nodes are shared
between copies, children are loaded on demand through an LRU cache, and rotations overwrite nodes in
place. The central fact is that a rotation only ever overwrites nodes made by the same insertion, so that
a Put is invisible to every other handle; `TreeRuns` states it for all interleavings.

**The block download queue.** `DownloadQueue` is a state machine over the queue's steps; `SyncQueue` is
the class whose methods take those steps on a heap in segmented blocks (`Priqueue`). The books are one
equation between multisets: queued plus in flight equals scheduled. `QueueLaws` says of each step what it does to
hashes, requests and blocks, and `CachePool` when pool and cache agree.

**The canonical chain and the ledger.** `ChainIndex` and `BlockChain` treat fork switching on the header
store; `Ledger` and `StateTree` treat transaction execution, on account contents and on the shared
account objects, with the miner and the validator side by side. `Accounting` states execution account by account.

**The price and nonce merge** of pending transactions (`PriceMerge`).

Results where the code falls short of what one would expect of it:

- `FieldNormalize.MagnitudeLimit`: the limb check admits magnitude 2048, for which the first pass of
  normalisation can overflow; it cannot for 2047.
- `DownloadQueue.DeliverKeeps`, `DownloadQueue.LostHash`: a delivery reported as an invalid chain drops the hashes
  still owed. They stay in the schedule, so a later Insert skips them. The fetch loop only logs the error and
  goes on (backend/syncmgr.go:517-520).
- `CachePool.DeliverTied`, `CachePool.Overwritten`: two requested blocks of one height share a slot of the cache, and
  the hash of the one overwritten stays in the pool and takes up space until Reset. Peers choose the heights.
- `DownloadQueue.CancelKeeps`, `DownloadQueue.StaleCancel`, `DownloadQueue.CancelAfterReset`: cancelling a request that
  is no longer pending breaks the books. One that was delivered in full is empty and harmless; one that expired, or
  was delivered in part, is not. In the repository Cancel follows its own Reserve in the goroutine that also
  delivers and expires (backend/syncmgr.go:539-560), so the run of `StaleCancel` needs a caller outside it. The Reset
  of `CancelAfterReset` can come in between, from a failed insertion in another goroutine
  (backend/syncmgr.go:259, 468), and is undone by the Reset that opens the next synchronisation.
- `DownloadQueue.PrepareKeeps`, `DownloadQueue.ShiftedCache`: raising the offset over a non-empty cache breaks its
  indexing by height. Only a caller outside the repository can do so: Prepare runs once in a synchronisation, after Reset and before any
  delivery (backend/syncmgr.go:657, 496).
- `BlockChain.BlockChain.Reorg`, `BlockChain.MissingParent`: the test after the first loop looks at the wrong
  variable, so that a higher block whose parent is not stored ends in a nil dereference instead of an error. Only a
  caller of WriteBlock outside the repository can reach it: InsertChain looks for the parent first, and the miner
  writes a child of a former head, which is a child of the head or not above it.
- `ChainIndex.AbandonedBranch`: a switch deletes the headers of the branch it leaves, so a longer
  extension of that branch is refused later.
- `StateTree.SkipLosesUpdates`: when the miner skips a transaction it continues on a copy of the account
  tree, while accounts loaded before keep writing to the old one. The accounts are right, as `Ledger.ReplayAgrees`
  needs; the tree whose root goes into the header is right exactly when none of those accounts has changed since
  (`StateTree.MineBlock`).
- `FieldPower.InvAllVar`: a single zero among the inputs of a batch inversion makes every output zero.

`dafny verify dfyconfig.toml` checks the project. Where a class models an object that others share,
ghost parameters name the set of nodes in use; where the source walks a Go map, the model picks the
elements in arbitrary order.

## Model

| member | source | states |
|---|---|---|
| `Wnaf.EcmultWnaf` | crypto/secp256k1/libsecp256k1/src/ecmult_impl.h:235-284 | digits are zero or odd below 2^(w-1), non-zero ones at least w places apart, none at or past the returned length; they sum to the scalar exactly when the final carry is 0 and its magnitude is below 2^len, and below 2^(len-1) the carry is 0 |
| `Wnaf.RecodedValue` | crypto/secp256k1/libsecp256k1/src/ecmult_impl.h:254-280 | the digits sum to the scalar exactly when no carry is left and no bit beyond the last digit |
| `Ecmult.OddMultiplesTable` | crypto/secp256k1/libsecp256k1/src/ecmult_impl.h:52-85 | entry i is (2i+1) times the point |
| `Ecmult.TableGet` | crypto/secp256k1/libsecp256k1/src/ecmult_impl.h:134-155 | the table and its negation give n*p for every odd digit n in range |
| `Ecmult.BuildContext` | crypto/secp256k1/libsecp256k1/src/ecmult_impl.h:164-194 | the tables hold the odd multiples of G and of 2^128 G |
| `Ecmult.StraussLoop` | crypto/secp256k1/libsecp256k1/src/ecmult_impl.h:367-399 | the interleaved double-and-add loop over four recodings computes the combination they stand for |
| `Ecmult.Ecmult` | crypto/secp256k1/libsecp256k1/src/ecmult_impl.h:286-404 | for every point and scalars the result is na*A + ng*G |
| `LambdaSplit.MulShiftRounds` | crypto/secp256k1/libsecp256k1/src/scalar_4x64_impl.h:932-947 | multiplying and shifting divides by 2^shift and rounds to the nearest number |
| `LambdaSplit.Quotient` | crypto/secp256k1/libsecp256k1/src/scalar_impl.h:316-356 | the rounded multiplication by g1 or g2 differs from dividing by n by at most a half and 2^-17 |
| `LambdaSplit.SplitParts` | crypto/secp256k1/libsecp256k1/src/scalar_impl.h:334-366 | for every scalar k the halves satisfy r1 + r2*lambda = k modulo n, and each half or its negative is below 2^128 |
| `EcmultConst.WnafConst` | crypto/secp256k1/libsecp256k1/src/ecmult_const_impl.h:57-119 | every digit is odd, non-zero and below 2^w in size; the digits sum to scalar + skew modulo n, scalar -1 included, exactly when the skewed scalar fits them |
| `EcmultConst.ConstTableGet` | crypto/secp256k1/libsecp256k1/src/ecmult_const_impl.h:23-42 | scanning the whole table selects n*p |
| `EcmultConst.EcmultConst` | crypto/secp256k1/libsecp256k1/src/ecmult_const_impl.h:122-237 | after the skews are subtracted the result is scalar*A |
| `EcmultGen.MasksCancel` | crypto/secp256k1/libsecp256k1/src/ecmult_gen_impl.h:55-86 | the masking points of the 64 rows sum to zero |
| `EcmultGen.BuildTable` | crypto/secp256k1/libsecp256k1/src/ecmult_gen_impl.h:55-86 | entry i of row j is i*16^j*G plus the mask of row j |
| `EcmultGen.GenContext.constructor` | crypto/secp256k1/libsecp256k1/src/ecmult_gen_impl.h:21-92 | a built context satisfies initial = -(blind*G) |
| `EcmultGen.GenContext.EcmultGen` | crypto/secp256k1/libsecp256k1/src/ecmult_gen_impl.h:124-156 | in every blinding state the result is gn*G |
| `EcmultGen.GenContext.Blind` | crypto/secp256k1/libsecp256k1/src/ecmult_gen_impl.h:159-208 | re-blinding, or resetting, keeps initial = -(blind*G) |
| `CurveModel.AssumptionsHold` | crypto/secp256k1/libsecp256k1/src/ecmult_impl.h:286-404 | the assumptions on group, endomorphism and coordinates have a model |
| `Ecdsa.EqXDecides` | crypto/secp256k1/libsecp256k1/src/ecdsa_impl.h:237-270 | comparing x*Z^2 with X decides equality of affine x without an inversion |
| `Ecdsa.TwoCases` | crypto/secp256k1/libsecp256k1/src/ecdsa_impl.h:237-270 | x mod n equals r exactly when x is r, or r + n with r below p - n |
| `Ecdsa.SigVerify` | crypto/secp256k1/libsecp256k1/src/ecdsa_impl.h:203-271 | accepts exactly when r and s are non-zero and X(R) mod n equals r, with s inverted by the power n - 2 |
| `Ecdsa.SignedIsAccepted` | crypto/secp256k1/libsecp256k1/src/ecdsa_impl.h:273-313 | s = k^-1(m + r d), flipped or not, verifies under the matching key |
| `Ecdsa.SigSign` | crypto/secp256k1/libsecp256k1/src/ecdsa_impl.h:273-313 | a success with non-zero r is low-s, is accepted by verification, and its recovery id identifies the nonce point |
| `Der.DerReadLen` | crypto/secp256k1/libsecp256k1/src/ecdsa_impl.h:49-99 | reads the length the grammar assigns, rejects every other form, and stays inside the input |
| `Der.DerParseInteger` | crypto/secp256k1/libsecp256k1/src/ecdsa_impl.h:101-145 | accepts exactly minimal integers; negative or overlong ones read as zero scalars |
| `Der.SigParse` | crypto/secp256k1/libsecp256k1/src/ecdsa_impl.h:147-177 | accepts exactly the signatures of the grammar, with the integers they hold |
| `Der.ParseEncode` | crypto/secp256k1/libsecp256k1/src/ecdsa_impl.h:147-201 | parsing what was printed gives back r and s, for all scalars |
| `Der.EncodeParse` | crypto/secp256k1/libsecp256k1/src/ecdsa_impl.h:147-201 | accepted bytes with non-zero r and s are the printed form of r and s: the encoding is canonical |
| `Der.MinimalUnique` | crypto/secp256k1/libsecp256k1/src/ecdsa_impl.h:101-145 | a value has one minimal integer encoding |
| `Der.SigSerialize` | crypto/secp256k1/libsecp256k1/src/ecdsa_impl.h:179-201 | prints the encoding if it fits and reports the size needed either way |
| `LaxDer.SignatureParseDerLax` | crypto/secp256k1/libsecp256k1/contrib/lax_der_parsing.c:12-149 | computes the lax reading of every input and stays inside it |
| `LaxDer.LaxParseEncode` | crypto/secp256k1/libsecp256k1/contrib/lax_der_parsing.c:12-149 | the lax parser reads printed signatures back |
| `LaxDer.LaxAgrees` | crypto/secp256k1/libsecp256k1/contrib/lax_der_parsing.c:12-149 | on bytes the strict parser accepts with non-zero r and s both parsers agree |
| `DerGrammar.ComposedAccepted` | crypto/secp256k1/libsecp256k1/src/ecdsa_impl.h:49-177 | everything made of a SEQUENCE of two minimal INTEGERs with shortest lengths is accepted with the numbers it holds, r before s, if shorter than 2^31 bytes |
| `DerGrammar.AcceptedComposed` | crypto/secp256k1/libsecp256k1/src/ecdsa_impl.h:49-177 | and nothing else is |
| `DerGrammar.LaxComposedAccepted` | crypto/secp256k1/libsecp256k1/contrib/lax_der_parsing.c:12-149 | everything with an outer length of any value, two INTEGERs of any form and anything after is accepted, r before s |
| `DerGrammar.LaxAcceptedComposed` | crypto/secp256k1/libsecp256k1/contrib/lax_der_parsing.c:12-149 | and nothing else is |
| `Field5x52.ColumnsMultiply` | crypto/secp256k1/libsecp256k1/src/field_5x52_int128_impl.h:41-152 | the nine column sums stand for the product of the two values |
| `Field5x52.Reduce` | crypto/secp256k1/libsecp256k1/src/field_5x52_int128_impl.h:41-152 | within the bounds the accumulators never overflow and every width check holds; the limbs stand for the columns modulo p |
| `Field5x52.MulInner` | crypto/secp256k1/libsecp256k1/src/field_5x52_int128_impl.h:18-153 | for inputs of the stated widths the limbs stand for a*b modulo p |
| `Field5x52.SqrInner` | crypto/secp256k1/libsecp256k1/src/field_5x52_int128_impl.h:155-275 | the same limbs as multiplying a by itself |
| `Field10x26.DiagonalsMultiply` | crypto/secp256k1/libsecp256k1/src/field_10x26_impl.h:467-484 | schoolbook columns stand for the product, for any number of limbs |
| `Field10x26.Limits` | crypto/secp256k1/libsecp256k1/src/field_10x26_impl.h:446-484 | the exact largest value of each column at the stated limb widths |
| `Field10x26.Widths` | crypto/secp256k1/libsecp256k1/src/field_10x26_impl.h:484-732 | every bound checked inside the nine blocks holds, down to the exact constants at columns 7 and 8 |
| `Field10x26.Finish` | crypto/secp256k1/libsecp256k1/src/field_10x26_impl.h:734-766 | the final folding stays inside its checked bounds and returns limbs of the stated widths |
| `Field10x26.ReduceValue` | crypto/secp256k1/libsecp256k1/src/field_10x26_impl.h:472-767 | the reduced limbs stand for the columns modulo p |
| `Field10x26.MulInner` | crypto/secp256k1/libsecp256k1/src/field_10x26_impl.h:440-767 | for inputs of the stated widths the limbs stand for a*b modulo p, in 64-bit accumulators |
| `Field10x26.SqrInner` | crypto/secp256k1/libsecp256k1/src/field_10x26_impl.h:769-1041 | the same limbs as multiplying a by itself |
| `FieldNormalize.NormalizedUnique` | crypto/secp256k1/libsecp256k1/src/field_5x52_impl.h:54-95 | a residue has one normalised representation |
| `FieldNormalize.Normalize` | crypto/secp256k1/libsecp256k1/src/field_5x52_impl.h:54-95 | up to magnitude 2047, the representative below p of the same residue |
| `FieldNormalize.NormalizeVar` | crypto/secp256k1/libsecp256k1/src/field_5x52_impl.h:121-163 | the same result with the conditional final subtraction |
| `FieldNormalize.NormalizeWeak` | crypto/secp256k1/libsecp256k1/src/field_5x52_impl.h:97-119 | magnitude 1 and the same residue |
| `FieldNormalize.NormalizesToZero` | crypto/secp256k1/libsecp256k1/src/field_5x52_impl.h:165-186 | true exactly when the value is 0 modulo p |
| `FieldNormalize.NormalizesToZeroVar` | crypto/secp256k1/libsecp256k1/src/field_5x52_impl.h:188-227 | the early exit gives the same answer |
| `FieldNormalize.Negate` | crypto/secp256k1/libsecp256k1/src/field_5x52_impl.h:327-342 | 2(m+1)p - a without underflow of any limb |
| `FieldNormalize.Add` | crypto/secp256k1/libsecp256k1/src/field_5x52_impl.h:357-371 | values and magnitudes add |
| `FieldNormalize.Equal` | crypto/secp256k1/libsecp256k1/src/field_impl.h:24-29 | decides congruence modulo p |
| `FieldNormalize.MagnitudeLimit` | crypto/secp256k1/libsecp256k1/src/field_5x52_impl.h:33-61 | the first pass fits 64 bits for all elements of magnitude m exactly when m <= 2047, one below what the check admits |
| `FieldPrime.FieldPrimeIsPrime` | crypto/secp256k1/libsecp256k1/src/field_5x52_impl.h:24-30 | the modulus p of the field is prime, by a chain of Pocklington certificates |
| `OrderPrime.OrderIsPrime` | crypto/secp256k1/libsecp256k1/src/scalar_4x64_impl.h:10-14 | the group order n is prime, by a chain of Pocklington certificates |
| `Certificates.Pocklington` | crypto/secp256k1/libsecp256k1/src/field_5x52_impl.h:24-30 | a number whose prime divisors are all 1 modulo f, with f^2 above it, is prime |
| `Primes.Fermat` | crypto/secp256k1/libsecp256k1/src/field_impl.h:136-224 | the little theorem for every prime, which inversion by powers rests on |
| `ScalarInverse.Inverse` | crypto/secp256k1/libsecp256k1/src/scalar_impl.h:55-258 | the addition chain computes x^(n-2), which is the inverse of every non-zero scalar, and 0 for 0 |
| `FieldPower.Inv` | crypto/secp256k1/libsecp256k1/src/field_impl.h:136-224 | the addition chain computes a^(p-2), which is the inverse of every non-zero a, and 0 for 0 |
| `FieldPower.Sqrt` | crypto/secp256k1/libsecp256k1/src/field_impl.h:38-134 | the chain computes a^((p+1)/4), and reports a root exactly when a is a square modulo p |
| `FieldPower.PowerInverts` | crypto/secp256k1/libsecp256k1/src/field_impl.h:136-224 | a^(p-2) inverts every non-zero a and leaves 0 at 0 |
| `FieldPower.SqrtOfSquare` | crypto/secp256k1/libsecp256k1/src/field_impl.h:38-134 | every square, 0 included, has its root found |
| `FieldPower.InvAllVar` | crypto/secp256k1/libsecp256k1/src/field_impl.h:263-288 | with one inversion every element is inverted, and if any input is zero every output is zero |
| `AvlTree.RebalanceRestores` | avlmerkle/node.go:245-273 | siblings at most two levels apart are brought within one, losing at most a level |
| `AvlTree.Insert` | avlmerkle/node.go:134-180 | keeps every balance factor in -1..1 and grows by at most a level |
| `AvlTree.KeyRange` | avlmerkle/node.go:275-294 | a node's key is the maximum of its subtree |
| `AvlTree.InsertRefinesUpdate` | avlmerkle/node.go:134-180 | insertion keeps the search order and is map update |
| `AvlTree.LookupRefinesGet` | avlmerkle/node.go:182-196 | lookup is map lookup |
| `AvlTree.GetAfterPuts` | avlmerkle/node.go:134-196 | after any run of Puts, Get returns the value last put |
| `AvlTree.DepthBound` | avlmerkle/node.go:245-273 | depth d needs at least 2^(d/2) leaves |
| `AvlTree.DepthFitsByte` | avlmerkle/node.go:72-91 | below 2^128 leaves the one-byte depth cannot wrap |
| `AvlTree.LeavesAreKeys` | avlmerkle/node.go:134-180 | one leaf for each key |
| `NodeCodec.DecodeEncode` | avlmerkle/node.go:45-122 | decoding undoes encoding |
| `NodeCodec.EncodeLayout` | avlmerkle/node.go:45-122 | the bytes of a record are exactly: depth (0 for a leaf), length of the key in four octets lowest first, key, then length and value of a leaf or the identifiers of left and right; such bytes decode to the record |
| `NodeCodec.LayoutDecodes` | avlmerkle/node.go:93-122 | bytes after a record are not looked at |
| `NodeCodec.IdLayout` | avlmerkle/node.go:72-132 | the identifier of a tree is the hash of bytes holding depth, key and value, or the identifiers of its left and then of its right subtree |
| `Keys.LessExactly` | avlmerkle/node.go:134-196 | keys are compared byte by byte, a proper prefix being smaller |
| `NodeCodec.EncodeInjective` | avlmerkle/node.go:72-91 | different nodes have different bytes |
| `NodeCodec.ChecksumDetermines` | avlmerkle/tree.go:81-86 | equal checksums mean equal structure and contents, where no two of the bytes collide |
| `NodeCodec.CommitStores` | avlmerkle/tree.go:206-234 | a commit stores every node of the tree and changes no earlier entry |
| `Lru.Cache.Get` | lru/lrucache.go:46-58 | the cached value, which becomes the most recent |
| `Lru.Cache.GetOrPut` | lru/lrucache.go:60-82 | the present value, or the new one inserted |
| `Lru.Cache.Put` | lru/lrucache.go:84-104 | the key holds the value and is most recent; only the least recent are evicted |
| `Lru.Cache.Remove` | lru/lrucache.go:106-114 | the key and nothing else is gone |
| `Lru.WithoutSplice` | lru/lrucache.go:46-58 | moving a key to the front, or removing it, leaves the others in their order |
| `MerkleTree.Tree.LoadNode` | avlmerkle/tree.go:151-176 | through the cache or from the store, the node that was stored |
| `MerkleTree.Tree.MustLoadLeft` | avlmerkle/tree.go:96-103 | fills the child pointer and changes the meaning of no node |
| `MerkleTree.Tree.MustLoadRight` | avlmerkle/tree.go:105-112 | the same on the right |
| `MerkleTree.Tree.SyncNode` | avlmerkle/node.go:275-294 | depth, key and identifier follow from the loaded children |
| `MerkleTree.Tree.LeftRotateNode` | avlmerkle/node.go:209-225 | overwrites only the rotated node, which no other node refers to, and returns the rotated tree |
| `MerkleTree.Tree.RightRotateNode` | avlmerkle/node.go:227-243 | the mirror image |
| `MerkleTree.Tree.RotateHeavyLeft` | avlmerkle/node.go:250-260 | single and double rotation, writing only two nodes made by this insertion |
| `MerkleTree.Tree.RotateHeavyRight` | avlmerkle/node.go:261-271 | the mirror image |
| `MerkleTree.Tree.RebalanceNode` | avlmerkle/node.go:245-273 | the rebalanced tree, with every shared node untouched |
| `MerkleTree.Tree.InsertNode` | avlmerkle/node.go:134-180 | the inserted tree as a fresh node; of the nodes that existed only child pointers are filled in |
| `MerkleTree.Tree.LookupNode` | avlmerkle/node.go:182-196 | the value lookup gives, with only child pointers filled in |
| `MerkleTree.Tree.Put` | avlmerkle/tree.go:69-75 | the handle stands for the updated tree and all other nodes keep their meaning |
| `MerkleTree.Tree.Get` | avlmerkle/tree.go:180-185 | the value under the key, through lazy loads |
| `MerkleTree.Tree.Copy` | avlmerkle/tree.go:77-79 | a second handle on the same tree |
| `MerkleTree.Tree.Checksum` | avlmerkle/tree.go:81-86 | the identifier of the root |
| `MerkleTree.Tree.Collect` | avlmerkle/node.go:312-334 | the depth-first walk writes each node's bytes under its identifier |
| `MerkleTree.Tree.Commit` | avlmerkle/tree.go:206-234 | the whole tree is stored and every earlier entry is as it was |
| `MerkleTree.OpenTree` | avlmerkle/tree.go:38-68 | failure exactly when the root record is not stored or does not decode; otherwise that record is the root, and a tree stored whole is the value of the handle |
| `TreeRuns.Reopen` | avlmerkle/tree.go:38-86 | reopening by checksum gives a handle on the same tree |
| `TreeRuns.Run` | avlmerkle/tree.go:38-234 | any interleaving of Put, Get, Copy, Commit and reopening over handles sharing nodes and caches answers as independent trees would |
| `TreeRuns.RunFromStart` | avlmerkle/tree.go:38-234 | the same from an empty store, each Get returning the value last put in its handle's own history |
| `TreeRuns.AnswersAreLastPuts` | avlmerkle/tree.go:69-185 | each Get through a handle returns the value last put in that handle's own history, whatever later Puts happen elsewhere |
| `Heap.PushHeap` | common/priqueue/priqueue.go:81-83 | the heap order is kept and the element added |
| `Heap.PopHeap` | common/priqueue/priqueue.go:85-88 | the element of highest rank comes out, nothing else is lost, the order is kept |
| `Heap.Init` | transaction.go:337-337 | any sequence is turned into a heap of the same elements |
| `Priqueue.SStack.Push` | common/priqueue/priqueue.go:27-40 | appends, opening or re-entering a block at the boundary |
| `Priqueue.SStack.Pop` | common/priqueue/priqueue.go:42-51 | removes the last element, stepping back a block at the boundary |
| `Priqueue.SStack.Swap` | common/priqueue/priqueue.go:61-64 | exchanges two elements across blocks |
| `Priqueue.SStack.Less` | common/priqueue/priqueue.go:57-59 | compares priorities across blocks |
| `Priqueue.Queue.Push` | common/priqueue/priqueue.go:81-83 | adds one item |
| `Priqueue.Queue.Pop` | common/priqueue/priqueue.go:85-88 | an item of the highest priority, everything else left queued |
| `Priqueue.Queue.Reset` | common/priqueue/priqueue.go:102-104 | empty again |
| `DownloadQueue.OnePlace` | backend/queue.go:66-239 | a hash in flight is in flight at one peer, is not queued, and has its original priority |
| `DownloadQueue.QueuedOnce` | backend/queue.go:66-239 | a queued hash is queued once at its original priority |
| `DownloadQueue.InsertKeeps` | backend/queue.go:66-83 | the books balance after Insert as before |
| `QueueLaws.InsertSchedules` | backend/queue.go:66-83 | every hash of the list is scheduled; the new ones are returned in order of first occurrence without repeats, numbered on from the counter in that order and queued at their numbers; earlier numbers stay |
| `QueueLaws.NumberStays` | backend/queue.go:55-247 | a hash keeps its number while it is scheduled |
| `QueueLaws.EarlierFirst` | backend/queue.go:66-176 | of two new hashes of one list the earlier goes out first, however many steps later |
| `DownloadQueue.CancelKeeps` | backend/queue.go:100-108 | scheduled = queued + in flight survives exactly when the request is what its peer has pending |
| `DownloadQueue.StaleCancel` | backend/queue.go:100-239 | a run from Reset: a request that expired is cancelled after another peer delivered its hash, which queues a hash that is not scheduled |
| `DownloadQueue.CancelAfterReset` | backend/queue.go:55-176 | a run: the queue is reset between Reserve and Cancel, which queues a hash that is not scheduled |
| `DownloadQueue.ReserveKeeps` | backend/queue.go:140-176 | hashes move from the queue to the request, within the free space |
| `DownloadQueue.ReserveInOrder` | backend/queue.go:140-176 | hashes go out in schedule order, past those the peer lacks |
| `QueueLaws.ReserveHandsOut` | backend/queue.go:140-176 | the request is made of queued hashes the peer does not lack, as many as asked for unless the free slots or the queue run out |
| `QueueLaws.ReserveFills` | backend/queue.go:140-176 | a peer that lacks nothing gets the least of count, queue and free slots |
| `DownloadQueue.ExpireKeeps` | backend/queue.go:177-196 | expired requests go back into the queue whole |
| `QueueLaws.ExpireDrops` | backend/queue.go:177-196 | exactly the requests older than the timeout are dropped, and exactly their hashes go back |
| `DownloadQueue.DeliverKeeps` | backend/queue.go:197-239 | keeps the books, and loses hashes exactly when it reports an invalid chain |
| `DownloadQueue.LostHash` | backend/queue.go:55-239 | a run from Reset: a block outside the window leaves its hash scheduled, neither queued nor in flight, and a second Insert passes it over |
| `DownloadQueue.DeliverInvalid` | backend/queue.go:213-223 | an invalid chain is reported exactly when a requested block lies outside the window |
| `QueueLaws.DeliverTakesIn` | backend/queue.go:197-239 | up to the first requested block outside the window, requested blocks fill the slots of their heights under the name of the peer, their hashes move from schedule to pool, the others are counted, and what has not come is queued again unless the chain was invalid |
| `DownloadQueue.PrepareKeeps` | backend/queue.go:241-247 | the cache stays indexed by height exactly when the offset does not rise or the cache is empty |
| `DownloadQueue.ShiftedCache` | backend/queue.go:55-247 | a run from Reset: raising the offset over a cached block leaves it in a slot for another height |
| `DownloadQueue.TakeInOrder` | backend/queue.go:121-138 | the blocks taken are consecutive and the window moves past them |
| `QueueLaws.TakesAll` | backend/queue.go:121-138 | all blocks up to the first gap come out, and the others move up |
| `QueueLaws.FreshStart` | backend/queue.go:55-65 | Reset empties everything |
| `QueueLaws.SyncFrom` | backend/queue.go:55-247 | over a whole synchronisation the blocks taken have the heights from the one prepared on, one of each |
| `DownloadQueue.StepKeeps` | backend/queue.go:55-247 | every step keeps hashes in one place and blocks plus requests within the cache; only an invalid chain loses hashes |
| `DownloadQueue.RunSafe` | backend/queue.go:55-247 | the same over every run |
| `DownloadQueue.TakenConsecutive` | backend/queue.go:109-247 | over every run from a prepared offset, whatever order peers deliver in, the blocks taken have consecutive heights with no gap or repeat |
| `CachePool.DeliverTied` | backend/queue.go:197-239 | the pool of downloaded hashes stays the hashes of the cached blocks exactly when no two blocks cached or accepted share a height |
| `CachePool.Overwritten` | backend/queue.go:55-239 | a run from Reset: two blocks of one height, after which a hash stays in the pool with the cache empty |
| `CachePool.TakeTied` | backend/queue.go:121-138 | taking blocks keeps pool and cache in agreement |
| `CachePool.StepTied` | backend/queue.go:55-247 | the same for every step |
| `CachePool.RunTied` | backend/queue.go:55-247 | over every steady run pool and cache agree throughout exactly when no two blocks of one height meet |
| `SyncQueue.SyncQueue.constructor` | backend/queue.go:43-53 | an empty queue |
| `SyncQueue.SyncQueue.Insert` | backend/queue.go:66-83 | takes the Insert step of the state machine |
| `SyncQueue.SyncQueue.Cancel` | backend/queue.go:100-108 | takes the Cancel step, in whatever order the map is walked |
| `SyncQueue.SyncQueue.Throttle` | backend/queue.go:109-120 | true exactly when no space is left |
| `SyncQueue.SyncQueue.TakeBlocks` | backend/queue.go:121-138 | takes the TakeBlocks step, moving the cache in place |
| `SyncQueue.SyncQueue.Reserve` | backend/queue.go:140-176 | takes the Reserve step, on the heap, duplicates in the queue included |
| `SyncQueue.SyncQueue.Expire` | backend/queue.go:177-196 | takes the Expire step and lists exactly the expired peers |
| `SyncQueue.SyncQueue.Deliver` | backend/queue.go:197-239 | takes the Deliver step, leaves in the request what did not arrive, and says which hashes the peer is marked as lacking |
| `SyncQueue.SyncQueue.Prepare` | backend/queue.go:241-247 | takes the Prepare step |
| `SyncQueue.SyncQueue.Reset` | backend/queue.go:55-65 | takes the Reset step |
| `ChainIndex.WriteKeeps` | block_chain.go:347-386 | one write keeps the height index in step with the parent links; a refused one changes nothing |
| `ChainIndex.RunKeeps` | block_chain.go:347-478 | the same over every run of writes from the genesis block |
| `ChainIndex.IndexAfterRun` | block_chain.go:347-478 | after any run the index up to the head is exactly the head's ancestor at each height |
| `ChainIndex.WriteExactly` | block_chain.go:347-386 | a block at or below the head is always written and only stored; a higher one exactly when walking its parents reaches the genesis block |
| `ChainIndex.WriteRemoves` | block_chain.go:400-478 | a new head removes exactly the headers of the chain left that are not on the new one |
| `ChainIndex.RunWrites` | block_chain.go:347-478 | both for every write of every run from the genesis block |
| `ChainIndex.NewChainKept` | block_chain.go:400-478 | a switch deletes no header of the chain leading to the new head |
| `ChainIndex.BranchShape` | block_chain.go:415-436 | the walk meets the main chain with one header at each height above |
| `ChainIndex.AbandonedBranch` | block_chain.go:440-453 | a higher block on a branch abandoned earlier is refused, its headers having been deleted |
| `BlockChain.BlockChain.FindPeer` | block_chain.go:403-414 | the first loop goes round once |
| `BlockChain.BlockChain.Walk` | block_chain.go:415-436 | terminates at the common ancestor, and reports failure exactly when there is none |
| `BlockChain.BlockChain.Reorg` | block_chain.go:400-478 | nothing is written unless the chains meet; a missing parent is a nil dereference, a missing ancestor an error |
| `BlockChain.MissingParent` | block_chain.go:347-436 | a run: a block above genesis whose parent is not stored ends in the nil dereference |
| `BlockChain.BlockChain.InsertHeader` | block_chain.go:388-398 | index entry, last hash and head |
| `BlockChain.BlockChain.WriteBlock` | block_chain.go:347-386 | the specified write, keeping the invariant, and which blocks are accepted |
| `Accounting.AppliedExactly` | block_chain.go:907-1034 | a transaction is applied exactly when signature, nonce, set balance, funds for gas, pool, limit and funds for the value are in order, and fails with the first that is not |
| `Accounting.AppliedMeans` | block_chain.go:953-1034 | for every address: the balance changes by the value received less the value sent less the gas used at its price, the nonce by what the contract raised and one for the sender; gas, world and receipt |
| `Accounting.FailedMeans` | block_chain.go:907-1034 | a failure changes no nonce, and takes the gas paid in advance exactly when it came after the purchase |
| `Accounting.ValidateSteps` | block_chain.go:825-843 | a block is accepted when all its transactions are, each on what the one before left, and rejected with the first error |
| `Accounting.BlockPays` | block_chain.go:825-843 | over a block every balance changes by what was paid |
| `Accounting.RunPays` | block_chain.go:590-843 | over any run of blocks every balance changes by what was paid and by the subsidies of the blocks it mined |
| `Accounting.MineSelects` | miner/miner.go:288-328 | the miner commits, in order, exactly the transactions for which neither they nor an earlier one of their sender asked for more gas than was left |
| `Accounting.MineAborts` | miner/miner.go:288-328 | the miner gives up only at a transaction that fails for another reason than the pool |
| `Ledger.CoinsApply` | block_chain.go:953-1034 | the coins fall by exactly the gas used at its price |
| `Ledger.SolventApply` | block_chain.go:907-1034 | no account is overdrawn, whether the transaction succeeds or fails |
| `Ledger.ReplayAgrees` | miner/miner.go:288-328 | what the miner commits, replayed by a validator, gives the same receipts, gas and accounts |
| `Ledger.BlockBalances` | block_chain.go:825-843 | over a block, gas left plus gas used equals the limit, and coins fall by the fees |
| `Ledger.Supply` | block_chain.go:590-603 | over any run of blocks the coins are those at the start, plus subsidies, less the gas paid for |
| `Ledger.SubsidyHalves` | block_chain.go:590-595 | the reward is the base below height 480, the same throughout a period of 480 heights, and halved from one period to the next, rounded down |
| `Ledger.PeriodSum` | block_chain.go:590-595 | n blocks into a period have minted n times its reward |
| `Ledger.SubsidyPeriods` | block_chain.go:590-595 | subsidies below any height sum to less than 960 times the base |
| `Ledger.MintedBound` | block_chain.go:590-603 | so do the coins minted by any chain of blocks |
| `StateTree.State.GetOrNewStateObj` | state_tree.go:308-348 | opens the account if it is missing and changes no other |
| `StateTree.State.AddBalance` | state_tree.go:119-129 | credits positive amounts |
| `StateTree.State.SubBalance` | state_tree.go:133-150 | debits positive amounts of an account whose balance is set, and leaves an unset balance unset |
| `StateTree.State.AddNonce` | state_tree.go:301-306 | raises the nonce |
| `StateTree.State.UpdateAll` | state_tree.go:384-388 | writes each object to the tree it was loaded from; accounts are unaffected |
| `StateTree.StoredExactly` | state_tree.go:384-388 | the current tree then agrees with the accounts exactly when those that write to another tree hold what was stored |
| `StateTree.State.Copy` | state_tree.go:268-278 | a new tree handle over the same account objects |
| `StateTree.State.Set` | state_tree.go:279-285 | back to the copy's tree and table |
| `StateTree.BuyGas` | block_chain.go:907-935 | nonce, balance and pool are checked in the source's order, the pool before any debit |
| `StateTree.Transfer` | block_chain.go:1026-1034 | moves the amount if it is there |
| `StateTree.ApplyTransaction` | block_chain.go:953-1024 | on account objects, the specified result and environment, in success and in every failure |
| `StateTree.TryTransaction` | miner/miner.go:309-321 | between Copy and Set a transaction that found the pool exhausted leaves no trace |
| `StateTree.ApplyTransactions` | block_chain.go:825-843 | the specified validation |
| `StateTree.MinerApply` | miner/miner.go:288-328 | the specified commit list, receipts, gas and accounts; and exactly what the current tree stores, which accounts are loaded and which of them a skip cut off from it |
| `StateTree.Seal` | block_chain.go:598-603 | the reward of the height is credited to the coinbase, and the tree holds what the accounts hold exactly when the accounts cut off from it hold what was stored |
| `StateTree.MineBlock` | miner/miner.go:357-371 | from applying to sealing: the root in the header is that of the accounts exactly when no account cut off by a skip was changed since it was last stored |
| `StateTree.SkipLosesUpdates` | miner/miner.go:288-371 | a mined block: apply, skip one that exhausts the pool, apply again; the second change is in the accounts and not in the tree that is committed |
| `PriceMerge.GroupBySender` | transaction.go:322-327 | every transaction in its sender's queue |
| `PriceMerge.SortOrdered` | transaction.go:328-330 | each queue in nonce order |
| `PriceMerge.Next` | transaction.go:340-352 | the best head comes off and its sender's next transaction goes in |
| `PriceMerge.SortByPriceAndNonce` | transaction.go:321-354 | a permutation, each sender in nonce order, and at every place the best paid of the senders' next transactions |

## Left out

- Ecmult.Ecmult: Jacobian coordinates and the common Z of the table are not modelled, because points are abstract.
- EcmultConst.EcmultConst: constant running time is not a functional property.
- EcmultGen.GenContext.Blind: the blinding scalar is a parameter, because its generation is not part of the model.
- Ecdsa.SigSign: the nonce is a parameter; deterministic nonce generation is not modelled.
- Der.DerReadLen: the truncation of a length to int is modelled, the wrap-around of size_t on inputs of 2^56 bytes or more is not.
- Field10x26.MulInner: the source writes nine unrolled blocks and sums; the model has one block and one sum, used nine times and nineteen times.
- MerkleTree.OpenTree: NewTree panics where the model reports failure; of a tree stored in part only the root record is stated, since later loads panic.
- NodeCodec.ChecksumDetermines: like all results on stored trees, assumes that the hash yields 32 bytes that are not all zero (`HashLaws`); the source reads a zero identifier as no node.
- MerkleTree.Tree.Commit: entries are keyed by identifier, without the prefix the source writes before it; assumes that no two of the byte strings written collide under the hash, and sizes below 2^32.
- SyncQueue.SyncQueue.Deliver: a request is a value here. The source shares one object between the queue and whoever reserved it; its only change, the removal of delivered hashes, is the result `left`.
- BlockChain.BlockChain.WriteBlock: headers are told apart by their hash and a child is one above its parent; transactions, receipts and their indexes are not modelled.
- StateTree.ApplyTransaction: contract execution is a parameter that may open accounts and raise nonces and never changes a balance; 64-bit wrap-around of nonces is not modelled.
- StateTree.BuyGas: an account whose balance was never set is the error NilBalance here; the source dereferences nil and panics.
- StateTree.State.SubBalance: on an unset balance the source also lowers a zero shared by all accounts, which is not modelled; BuyGas never lets it happen.
- PriceMerge.SortOrdered: the library sort is modelled by an insertion sort.
- The 10x26 normalisation family, conversion to and from bytes, and the limbs of scalars and the formulas of the group law.
- The assembly field code, benchmarks, timing, context memory handling.
- State roots as such: accounts are written to the tree in arbitrary order, and its shape depends on that order.
- The orphan pool, whose bound does not hold once the oldest orphan has been removed; the transaction pool; the token contracts and the contract buffer.
- Networking, RPC, storage drivers, wallets, the command line, events and locks: each locked method is one step here.
- Difficulty adjustment and proof of work.
