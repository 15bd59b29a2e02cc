# Proofs about the hashes, the web server, the client and the support code

A Dafny 4.11 project that models the hard parts of the repository and proves what they promise:

- the hashes of libtomcrypt (SHA-1, SHA-256, SHA-384, SHA-512, MD5, RIPEMD-160): the streaming interface against the
  one-shot definition for every way of cutting a message, padding against the standards, every form of every
  compression function (rolled, shifting, unrolled) against the standard's rounds, bijective rounds, reversible
  schedules, the Merkle-Damgard reduction, each operation on words bit by bit, and all constants against the roots and
  sines that define them;
- the server's bounded request queue and counters under the FIFO (or ANY) policy, over all interleavings, with the
  linked list of lists.h underneath;
- the client's semaphore ring (FIFO) and barrier rounds (CONCUR), over all interleavings and any number of threads;
- the Rio package of csapp.c, whatever the kernel does to the calls;
- the Park-Miller generator of Aleatorio.h, and its full period.

`dafny verify dfyconfig.toml` checks the whole project.

## How it is built

| files | content |
|---|---|
| Arithmetic, Tables, Registers, Folds | small facts, constant tables, register records, left folds and what undoes them |
| Words, Encoding, Primitives | machine words as bit-vectors and their bytes; cutting bytes into blocks; integers as bytes; what the operations on words do to single bits and bytes |
| Schedules | message schedules as a recurrence that runs forwards and backwards |
| Padding, Streaming, MerkleDamgard | what is common to all hashes, over an abstract compression function |
| Sha1, Sha256, Sha512, Md5, Rmd160 | the compression functions |
| Algorithms, Standards | the six hashes as instances; the same hashes written out without the record of parameters |
| Constants, Sines | the constants against the formulas that define them |
| Runs | runs of interleaved threads, invariants over them, and progress |
| Lists, Server, ServerState, Headers | the linked list; the server as a step machine; the shared variables updated in place; the loop that reads request headers |
| ClientFiles, ClientFifo, ClientConcur | the two client policies |
| Rio, Aleatorio, FullPeriod | buffered input and output; the generator; its period |

The text the six hashes share (`HASH_PROCESS` and the `*_done` functions) is modelled once, as class `Streaming.Md`,
with the differences (block size, size and byte order of the length field, compression function, initial state, digest)
in the record `Padding.Alg`. Words are `bv32` and `bv64`, bytes are `bv8`, and bit counts are kept modulo 2^64 as the
code keeps them. Additions have names (`Add`, `Sum5`, ...) so that proofs about rounds can treat them as unknown
functions. The operations that the code and the standards write alike
(rotations, sums, the functions of three words) have one definition each, and `Primitives` says what each does without it.
The predicate `Reached` of each compression module says that some registers are where the standard is after
i rounds; the macros keep it under renaming of the registers, which is how the forms with rotated arguments, the forms
that shift variables and the standard meet.

The threads of the server and of the client are step machines: an action names a thread, and a run is any sequence of
actions that were enabled in turn. A step of the server is one access to shared data between two points where another
thread may run. `ServerState` then performs the same accesses on real fields, an array and the linked list.

Where the code does not do what it is meant to do, the model follows the code and says exactly when. The comment of `ran0`
promises a sequence from any integer seed but MASK. `FullPeriod.FateOfSeed` says what becomes of every seed: the sequence
comes to the cycle of full period if and only if the masked seed is not a multiple of 2^31 - 1, and `FullPeriod.ModulusFails`
is a seed other than MASK for which it does not. Single calls are the intended multiplication exactly under the condition of
`Aleatorio.Ran0IsProduct`; `Aleatorio.LimitFails` is the first positive masked seed that fails it, and an argument of `ran0`
that is masked to it. `read_requesthdrs` ends if and only if a blank line comes (`Headers.EndsAtBlankLine`, with a request for
which it does not in `Headers.ClosedEarly`), and a server thread that waits in it stops all others (`Server.AllWaitForDoit`).
`rio_readlineb` returns the number of bytes it stored before the zero byte if and only if there was nothing
to read or the line ends in a newline, and one more in the other cases (`Rio.ResultIsCount`, with an input in
`Rio.ResultIsOneMore`). A comment in `sha512_done` assumes that nobody hashes 2^64 bits or more; `Padding.PadIsStandard` gives
the exact lengths, and `Algorithms.LongMessageDiffers` the first that fails.

## Model

| member | source | states |
|---|---|---|
| Words.RorRol | libtomcrypt/tomcrypt_macros.h:255-258 | rotating left and then right by the same count gives the word back |
| Words.RolRor | libtomcrypt/tomcrypt_macros.h:255-258 | rotating right and then left by the same count gives the word back |
| Words.Load32HStore32H | libtomcrypt/tomcrypt_macros.h:72-80 | LOAD32H and STORE32H undo each other, both ways |
| Words.Load32LStore32L | libtomcrypt/tomcrypt_macros.h:116-120 | LOAD32L and STORE32L undo each other, both ways |
| Words.Load64HStore64H | libtomcrypt/tomcrypt_macros.h:82-92 | LOAD64H and STORE64H undo each other, both ways |
| Words.BytesOfWords32H | libtomcrypt/sha256.c:87-90 | the sixteen words loaded from a 64-byte block determine its bytes |
| Words.BytesOfWords32L | libtomcrypt/rmd160.c:115-117 | the sixteen little-endian words loaded from a 64-byte block determine its bytes |
| Words.BytesOfWords64H | libtomcrypt/sha512.c:109-112 | the sixteen words loaded from a 128-byte block determine its bytes |
| Words.Bytes32HInjective | libtomcrypt/sha256.c:279-282 | two states stored as the same digest are the same state |
| Words.Bytes32LInjective | libtomcrypt/rmd160.c:397-400 | two states stored little-endian as the same digest are the same state |
| Words.Bytes64HInjective | libtomcrypt/sha512.c:249-252 | two states of 64-bit words stored as the same digest are the same state |
| Primitives.RolMovesBits | libtomcrypt/tomcrypt_macros.h:255-257 | bit i of the rotated word is bit i - n modulo 32 of the word, for every count and bit |
| Primitives.RorMovesBits | libtomcrypt/tomcrypt_macros.h:256-258 | bit i of the rotated word is bit i + n modulo 32 of the word, for every count and bit |
| Primitives.Ror64MovesBits | libtomcrypt/tomcrypt_macros.h:322-326 | bit i of the rotated word is bit i + n modulo 64 of the word, for every count that SHA-512 uses |
| Primitives.Xor4IsParity | libtomcrypt/sha1.c:68-70 | bit i of what the schedule of SHA-1 rotates is the parity of bit i of the four words |
| Primitives.Sha256BigSigma0Bits | libtomcrypt/sha256.c:64 | bit i is the exclusive or of bits i + 2, i + 13 and i + 22 modulo 32 |
| Primitives.Sha256BigSigma1Bits | libtomcrypt/sha256.c:65 | bit i is the exclusive or of bits i + 6, i + 11 and i + 25 modulo 32 |
| Primitives.Sha256Gamma0Bits | libtomcrypt/sha256.c:66 | bit i is the exclusive or of bits i + 7 and i + 18 modulo 32 and, below the top three, of bit i + 3 |
| Primitives.Sha256Gamma1Bits | libtomcrypt/sha256.c:67 | bit i is the exclusive or of bits i + 17 and i + 19 modulo 32 and, below the top ten, of bit i + 10 |
| Primitives.Sha512BigSigma0Bits | libtomcrypt/sha512.c:89 | bit i is the exclusive or of bits i + 28, i + 34 and i + 39 modulo 64 |
| Primitives.Sha512BigSigma1Bits | libtomcrypt/sha512.c:90 | bit i is the exclusive or of bits i + 14, i + 18 and i + 41 modulo 64 |
| Primitives.Sha512Gamma0Bits | libtomcrypt/sha512.c:91 | bit i is the exclusive or of bits i + 1 and i + 8 modulo 64 and, below the top seven, of bit i + 7 |
| Primitives.Sha512Gamma1Bits | libtomcrypt/sha512.c:92 | bit i is the exclusive or of bits i + 19 and i + 61 modulo 64 and, below the top six, of bit i + 6 |
| Primitives.Sha1FunctionBits | libtomcrypt/sha1.c:39-42 | bit by bit, Ch chooses y or z by x, Parity adds the three bits up, and Maj takes the majority |
| Primitives.Sha256FunctionBits | libtomcrypt/sha256.c:60-61 | bit by bit, Ch chooses y or z by x and Maj takes the majority |
| Primitives.Sha512ChBits | libtomcrypt/sha512.c:85 | bit by bit, Ch chooses y or z by x |
| Primitives.Sha512MajBits | libtomcrypt/sha512.c:86 | bit by bit, Maj takes the majority |
| Primitives.Md5ChoiceBits | libtomcrypt/md5.c:39-40 | bit by bit, F chooses y or z by x and G chooses x or y by z |
| Primitives.Md5ParityBits | libtomcrypt/md5.c:41 | bit by bit, H adds the three bits up |
| Primitives.Md5NegationBits | libtomcrypt/md5.c:42 | bit by bit, I negates y exactly where x is one or z is zero |
| Primitives.Rmd160FBits | libtomcrypt/rmd160.c:45 | bit by bit, F adds the three bits up |
| Primitives.Rmd160GBits | libtomcrypt/rmd160.c:46 | bit by bit, G chooses y or z by x |
| Primitives.Rmd160HBits | libtomcrypt/rmd160.c:47 | bit by bit, H negates z exactly where x is one or y is zero |
| Primitives.Rmd160IBits | libtomcrypt/rmd160.c:48 | bit by bit, I chooses x or y by z |
| Primitives.Rmd160JBits | libtomcrypt/rmd160.c:49 | bit by bit, J negates x exactly where y is one or z is zero |
| Primitives.AddCounts | libtomcrypt/sha256.c:186-189 | a sum is counting on from its first term, modulo 2^32 |
| Primitives.Add64Counts | libtomcrypt/sha512.c:153-156 | a sum is counting on from its first term, modulo 2^64 |
| Primitives.Sum3Counts | libtomcrypt/rmd160.c:304-309 | the sum of three counts on in its last term from the sum of the other two |
| Primitives.Sum4Counts | libtomcrypt/md5.c:46-56 | the sum of four counts on in one term from the sum of the others |
| Primitives.Sum5Counts | libtomcrypt/sha256.c:99-103 | the sum of five counts on in one term from the sum of the others |
| Primitives.Sum64x4Counts | libtomcrypt/sha512.c:114-117 | the 64-bit sum of four counts on in one term from the sum of the others |
| Primitives.Sum64x5Counts | libtomcrypt/sha512.c:134-138 | the 64-bit sum of five counts on in one term from the sum of the others |
| Primitives.Load32HPlaces | libtomcrypt/tomcrypt_macros.h:76-80 | each byte of a big-endian load stands at its place in the word |
| Primitives.Load32LPlaces | libtomcrypt/tomcrypt_macros.h:116-120 | each byte of a little-endian load stands at its place in the word |
| Primitives.Load64HPlaces | libtomcrypt/tomcrypt_macros.h:88-92 | each byte of a 64-bit big-endian load stands at its place in the word |
| Encoding.CutInTwo | libtomcrypt/tomcrypt_hash.h:327-348 | cutting into blocks may stop anywhere and go on with the bytes left over |
| Encoding.BlocksInjective | libtomcrypt/tomcrypt_hash.h:327-348 | data of whole blocks are determined by their blocks |
| Encoding.BigEndianInjective | libtomcrypt/tomcrypt_macros.h:82-86 | different lengths that fit are stored as different bytes, most significant first |
| Encoding.LittleEndianInjective | libtomcrypt/tomcrypt_macros.h:102-106 | different lengths that fit are stored as different bytes, least significant first |
| Encoding.ShiftedIsQuotient | libtomcrypt/tomcrypt_macros.h:82-86 | k divisions by 256 are the division by 256 to the power k, which is what a right shift by 8k bits of an unsigned number is |
| Streaming.EightBytes | libtomcrypt/tomcrypt_macros.h:82-106 | the eight bytes of a length, each the length divided by a power of 256 and reduced to its low byte, are its positional encoding in either byte order |
| Standards.EncodedNumber | libtomcrypt/tomcrypt_macros.h:82-106 | the bytes that are stored, read back as a number in their order, are the number modulo a power of 256 |
| Standards.BlocksAreTheData | libtomcrypt/tomcrypt_hash.h:327-348 | the blocks one after the other and the bytes left over are the data |
| Streaming.AbsorbTwice | libtomcrypt/tomcrypt_hash.h:317-351 | taking in x and then y leaves the state that x followed by y leaves, counts modulo 2^64 included |
| Streaming.FinishIsChain | libtomcrypt/sha256.c:252-277 | padding what is waiting after a whole message gives the fold over the blocks of the padded message |
| Streaming.PadInPlace | libtomcrypt/sha256.c:262-277 | the one or two blocks that done fills and compresses are the blocks of the padded remainder |
| Streaming.Md.constructor | libtomcrypt/sha256.c:208-223 | a fresh state stands for the empty message |
| Streaming.Md.CopyIn | libtomcrypt/tomcrypt_hash.h:334-335 | the bytes are appended to those waiting and the rest of the state stays |
| Streaming.Md.CompressBlock | libtomcrypt/tomcrypt_hash.h:328-331 | the block is folded into the state, its bits are counted modulo 2^64, and nothing is left waiting |
| Streaming.Md.Turn | libtomcrypt/tomcrypt_hash.h:328-347 | a turn of the loop, by either path, makes progress and leaves the final state the same |
| Streaming.Md.Process | libtomcrypt/tomcrypt_hash.h:317-351 | a call takes in exactly its data and ends, for every buffer count; the error is returned exactly when the count exceeds the buffer, with nothing changed |
| Streaming.Md.FillZeros | libtomcrypt/sha256.c:263-273 | zeros from the buffer count up to the given place, the rest of the buffer as it was |
| Streaming.Md.StoreLengthField | libtomcrypt/sha256.c:275-276 | the last eight bytes of the buffer become the length in the hash's byte order, the others stay |
| Streaming.Md.PadHead | libtomcrypt/sha512.c:229-247 | the block left open after the byte 0x80 is compressed in one or two blocks without leaving the buffer |
| Streaming.Md.FinalBlock | libtomcrypt/sha256.c:270-277 | what is in the buffer, zeros and the length make the last block |
| Streaming.Md.PadBuffer | libtomcrypt/sha1.c:204-229 | the chaining value becomes the one of the padded message, for every buffer count under the block size |
| Streaming.Md.Done | libtomcrypt/sha256.c:240-287 | error exactly when the buffer is full, with nothing changed; otherwise the digest of the padded message is written to out and the rest of out stays |
| Streaming.ProcessAll | libtomcrypt/tomcrypt_hash.h:317-351 | no call of a run fails, and the run takes in the concatenation of the chunks, empty ones included |
| Streaming.HashChunks | libtomcrypt/sha256.c:208-287 | init, any run of process calls and done return the one-shot hash of the whole message and never fail |
| Padding.StandardIsUnique | libtomcrypt/sha1.c:204-228 | the fewest-zeros rule, with the low bits of the length in the length field, is met by exactly one byte string for each length |
| Padding.PadIsStandard | libtomcrypt/sha512.c:237-246 | what done appends meets that rule if and only if the length field has 64 bits or the bit length modulo 2^128 is under 2^64; FIPS 180-4 itself speaks only of lengths that fit the field, and the rule extends it by keeping the low bits as RFC 1321 does |
| Padding.FirstDifference | libtomcrypt/sha512.c:237-246 | for SHA-384 and SHA-512 the padding is the standard's under 2^61 bytes and is not at 2^61 bytes |
| Padding.HashIsStandard | libtomcrypt/sha512.c:208-257 | the hash is the digest of the fold over the message with the padding of that rule: for SHA-1, SHA-256, MD5 and RIPEMD-160 on all lengths, beyond 2^64 bits by the extended rule, and for SHA-384 and SHA-512 if the bit length modulo 2^128 is under 2^64 |
| Padding.StandardHash | libtomcrypt/sha512.c:208-257 | at those lengths a padding by the rule exists, and the hash is the digest of the fold over the message with it |
| Padding.PadFillsFewestBlocks | libtomcrypt/rmd160.c:373-394 | padding fills whole blocks and no padding with room for the length field is shorter |
| Padding.PadInjective | libtomcrypt/sha256.c:252-276 | different messages, of any lengths, have different padded messages |
| Padding.PaddedIsWhole | libtomcrypt/sha256.c:255-276 | no byte is left over when a padded message is cut into blocks |
| Standards.PadIsUnique | libtomcrypt/sha1.c:204-228 | there is exactly one padding of each kind for a length: a one bit, the fewest zeros, and a length field whose bytes are the number of bits |
| MerkleDamgard.WalkFinds | libtomcrypt/tomcrypt_hash.h:327-348 | walking two chains with one end backwards reaches two different inputs of the compression function with one output |
| MerkleDamgard.ShortLengthsTell | libtomcrypt/tomcrypt_hash.h:332 | the stored lengths of two messages under 2^61 bytes differ if the lengths do |
| MerkleDamgard.DifferentBlocks | libtomcrypt/sha256.c:252-276 | different messages differ in the last block or have as many blocks that differ somewhere |
| MerkleDamgard.CollisionReduction | libtomcrypt/sha256.c:240-287 | a collision of any of the full-length hashes yields, by walking back, a collision of its compression function |
| Algorithms.Sha1Ready | libtomcrypt/sha1.c:165-239 | SHA-1 meets what the theorems about all hashes ask: sizes, and a digest that shows the whole state |
| Algorithms.Sha256Ready | libtomcrypt/sha256.c:208-287 | SHA-256 meets what the theorems about all hashes ask: sizes, and a digest that shows the whole state |
| Algorithms.Sha512Ready | libtomcrypt/sha512.c:177-257 | SHA-512 meets what the theorems about all hashes ask, and SHA-384 meets it but for the digest, which is cut |
| Algorithms.Md5Ready | libtomcrypt/md5.c:234-308 | MD5 meets what the theorems about all hashes ask: sizes, and a digest that shows the whole state |
| Algorithms.Rmd160Ready | libtomcrypt/rmd160.c:330-406 | RIPEMD-160 meets what the theorems about all hashes ask: sizes, and a digest that shows the whole state |
| Algorithms.PadFillsUp | libtomcrypt/sha256.c:252-276 | what done appends is 0x80, zeros and the length field, fills whole blocks, and has fewer zeros than a block |
| Algorithms.Sha1Pad | libtomcrypt/sha1.c:204-228 | for every length the last eight bytes of the padding, most significant first, are the number of bits modulo 2^64 |
| Algorithms.Sha256Pad | libtomcrypt/sha256.c:252-276 | for every length the last eight bytes of the padding, most significant first, are the number of bits modulo 2^64 |
| Algorithms.Sha512Pad | libtomcrypt/sha512.c:222-246 | for every length the last sixteen bytes of the padding of SHA-512 and SHA-384, most significant first, are the number of bits modulo 2^64 |
| Algorithms.Md5Pad | libtomcrypt/md5.c:273-297 | for every length the last eight bytes of the padding, least significant first, are the number of bits modulo 2^64 |
| Algorithms.Rmd160Pad | libtomcrypt/rmd160.c:370-394 | for every length the last eight bytes of the padding, least significant first, are the number of bits modulo 2^64 |
| Algorithms.Sha1Hash | libtomcrypt/sha1.c:165-239 | the hash is the five words, most significant byte first, of the SHA-1 compression iterated over the 64-byte blocks of the padded message |
| Algorithms.Sha256Hash | libtomcrypt/sha256.c:208-287 | the hash is the eight words, most significant byte first, of the SHA-256 compression iterated over the 64-byte blocks of the padded message |
| Algorithms.Sha512Hash | libtomcrypt/sha512.c:177-257 | the hash is the eight words, most significant byte first, of the SHA-512 compression iterated over the 128-byte blocks of the padded message |
| Algorithms.Md5Hash | libtomcrypt/md5.c:234-308 | the hash is the four words, least significant byte first, of the MD5 compression iterated over the 64-byte blocks of the padded message |
| Algorithms.Rmd160Hash | libtomcrypt/rmd160.c:330-405 | the hash is the five words, least significant byte first, of the RIPEMD-160 compression iterated over the 64-byte blocks of the padded message |
| Algorithms.Sha384Hash | libtomcrypt/sha384.c:42-82 | the first 48 bytes of the hash are the first six words, most significant byte first, of the SHA-512 compression iterated from the initial state of SHA-384 |
| Algorithms.Sha1Collision | libtomcrypt/sha1.c:165-239 | two different messages under 2^61 bytes with one SHA-1 digest lead, by walking back, to a collision of its compression function |
| Algorithms.Sha256Collision | libtomcrypt/sha256.c:208-287 | two different messages under 2^61 bytes with one SHA-256 digest lead, by walking back, to a collision of its compression function |
| Algorithms.Sha512Collision | libtomcrypt/sha512.c:177-257 | two different messages under 2^61 bytes with one SHA-512 digest lead, by walking back, to a collision of its compression function |
| Algorithms.Md5Collision | libtomcrypt/md5.c:234-308 | two different messages under 2^61 bytes with one MD5 digest lead, by walking back, to a collision of its compression function |
| Algorithms.Rmd160Collision | libtomcrypt/rmd160.c:330-405 | two different messages under 2^61 bytes with one RIPEMD-160 digest lead, by walking back, to a collision of its compression function |
| Algorithms.Sha1Chunks | libtomcrypt/sha1.c:165-239 | over any chunking no call fails and the digest is SHA-1 of the whole message, written out without parameters (Standards.IsSha1), with the standard's padding, which beyond 2^64 bits, where FIPS 180-4 defines none, is the extended rule |
| Algorithms.Sha256Chunks | libtomcrypt/sha256.c:208-287 | over any chunking no call fails and the digest is SHA-256 of the whole message, written out without parameters (Standards.IsSha256), with the standard's padding, which beyond 2^64 bits, where FIPS 180-4 defines none, is the extended rule |
| Algorithms.Sha512Chunks | libtomcrypt/sha512.c:177-257 | over any chunking no call fails and the digest is that of the SHA-512 compression iterated over the message with a 16-byte length field that holds the bit length modulo 2^64, which is the standard's padding if the bit length is under 2^64, or is so modulo 2^128 under the extended rule |
| Algorithms.Md5Chunks | libtomcrypt/md5.c:234-308 | over any chunking no call fails and the digest is MD5 with the standard's padding of the whole message, written out without parameters (Standards.IsMd5) |
| Algorithms.Rmd160Chunks | libtomcrypt/rmd160.c:330-405 | over any chunking no call fails and the digest is RIPEMD-160 with the standard's padding of the whole message, written out without parameters (Standards.IsRmd160) |
| Algorithms.LongMessageDiffers | libtomcrypt/sha512.c:237-246 | at 2^61 bytes, allowed by the code, the padding of SHA-512 and of SHA-384 is not the standard's |
| Algorithms.Sha384Standard | libtomcrypt/sha384.c:42-82 | the digest of which SHA-384 keeps 48 bytes is computed on the standard's padding if the bit length is under 2^64, or is so modulo 2^128 under the extended rule |
| Algorithms.Sha384Done | libtomcrypt/sha384.c:65-82 | the first 48 bytes of the SHA-512 style digest are written and nothing after them; the error case changes nothing |
| Algorithms.Sha384Chunks | libtomcrypt/sha384.c:42-82 | over any chunking SHA-384 is the first 48 bytes of the one-shot hash from its own initial state, that is the first six words of the last chaining value (Standards.IsSha384) |
| Constants.Sha256Init | libtomcrypt/sha256.c:214-221 | the initial words are the fractional square roots of the first eight primes |
| Constants.Sha512Init | libtomcrypt/sha512.c:182-189 | the initial words are the first 64 bits of the fractional square roots of the first eight primes |
| Constants.Sha384Init | libtomcrypt/sha384.c:48-55 | the initial words are the first 64 bits of the fractional square roots of the ninth to sixteenth primes |
| Constants.Md5Init | libtomcrypt/md5.c:237-240 | the initial state is the byte string of RFC 1321, and SHA-1 and RIPEMD-160 start with it |
| Constants.FifthWord | libtomcrypt/sha1.c:168-172 | the fifth initial word of SHA-1 and of RIPEMD-160 is the byte string f0 e1 d2 c3 |
| Constants.Sha1Constants | libtomcrypt/sha1.c:74-77 | the round constants are square roots of 2, 3, 5 and 10 |
| Constants.SharedConstants | libtomcrypt/sha512.c:41-82 | the high halves of the first 64 constants of SHA-512 are the constants of SHA-256, which so are the first 32 bits of the same cube roots |
| Constants.Sha512ConstantsFirst | libtomcrypt/sha512.c:42-49 | constants 0 to 15 are the first 64 bits of the fractional cube roots of the primes in order |
| Constants.Sha512ConstantsSecond | libtomcrypt/sha512.c:50-57 | constants 16 to 31 are the first 64 bits of the fractional cube roots of the primes in order |
| Constants.Sha512ConstantsThird | libtomcrypt/sha512.c:58-65 | constants 32 to 47 are the first 64 bits of the fractional cube roots of the primes in order |
| Constants.Sha512ConstantsFourth | libtomcrypt/sha512.c:66-73 | constants 48 to 63 are the first 64 bits of the fractional cube roots of the primes in order |
| Constants.Sha512ConstantsFifth | libtomcrypt/sha512.c:74-81 | constants 64 to 79 are the first 64 bits of the fractional cube roots of the primes in order |
| Constants.Md5WordOrder | libtomcrypt/md5.c:59-64 | each round takes the block words in an arithmetic progression modulo 16 |
| Constants.Md5Rotations | libtomcrypt/md5.c:66-71 | each round rotates by four amounts in turn, those of RFC 1321 |
| Sines.OneRadian | libtomcrypt/md5.c:73-82 | the sine and the cosine of one radian that the table is computed from are thirteen terms of their Taylor series, rounded down to 64 bits |
| Sines.Md5SinesFirst | libtomcrypt/md5.c:74-75 | entries 1 to 16 of the table are the integer part of 2^32 times the magnitude of the sine of i radians, computed by turning one radian at a time, with a margin for the rounding |
| Sines.Md5SinesSecond | libtomcrypt/md5.c:76-77 | entries 17 to 32 of the table are the integer part of 2^32 times the magnitude of the sine of i radians, computed by turning one radian at a time, with a margin for the rounding |
| Sines.Md5SinesThird | libtomcrypt/md5.c:78-79 | entries 33 to 48 of the table are the integer part of 2^32 times the magnitude of the sine of i radians, computed by turning one radian at a time, with a margin for the rounding |
| Sines.Md5SinesFourth | libtomcrypt/md5.c:80-81 | entries 49 to 64 of the table are the integer part of 2^32 times the magnitude of the sine of i radians, computed by turning one radian at a time, with a margin for the rounding |
| Constants.Rmd160Constants | libtomcrypt/rmd160.c:57-100 | the constants are square roots (left line) and cube roots (right line) of 2, 3, 5 and 7 |
| Constants.Rmd160WordOrder | libtomcrypt/rmd160.c:124-302 | each round takes the words in the order of the round before permuted by rho; the right line starts from 9j + 5 modulo 16 |
| Constants.Rmd160Rotations | libtomcrypt/rmd160.c:124-302 | in both lines the rotation of a step depends only on the round and the block word it takes |
| Schedules.ExpandFollows | libtomcrypt/sha256.c:87-95 | the expanded schedule starts with the block and every later word obeys the recurrence |
| Schedules.FollowsIsExpand | libtomcrypt/sha256.c:87-95 | a sequence that obeys the recurrence is the expansion of its first sixteen words |
| Schedules.RewindWindow | libtomcrypt/sha256.c:92-95 | running a reversible recurrence backwards from any window of sixteen words gives the block |
| Schedules.WindowDetermines | libtomcrypt/sha256.c:92-95 | any sixteen consecutive words determine all words, forwards and backwards |
| Folds.FoldBijection | libtomcrypt/sha256.c:97-109 | rounds of an invertible step are undone by the inverse steps in reverse order, and undo them |
| Sha256.ChIsStandard | libtomcrypt/sha256.c:60 | the code's Ch is the one of FIPS 180-4 on all words |
| Sha256.MajIsStandard | libtomcrypt/sha256.c:61 | the code's Maj is the one of FIPS 180-4 on all words |
| Sha256.Rnd | libtomcrypt/sha256.c:99-115 | the macro, which writes only d and h, is one standard round up to renaming the registers, wherever they are |
| Sha256.MacroIsStep | libtomcrypt/sha256.c:99-115 | what the macro adds to d and stores in h are the two registers a standard round computes anew |
| Sha256.FillSchedule | libtomcrypt/sha256.c:87-95 | W becomes the expansion of the big-endian words of the block |
| Sha256.RolledRounds | libtomcrypt/sha256.c:105-109 | 64 rounds with S shifted after each leave S where the standard is after 64 rounds |
| Sha256.Rounds0To15 | libtomcrypt/sha256.c:117-132 | sixteen rounds with rotated arguments and constants written out are rounds 0 to 15 of the standard, registers back in place |
| Sha256.Rounds16To31 | libtomcrypt/sha256.c:133-148 | sixteen rounds with rotated arguments and constants written out are rounds 16 to 31 of the standard, registers back in place |
| Sha256.Rounds32To47 | libtomcrypt/sha256.c:149-164 | sixteen rounds with rotated arguments and constants written out are rounds 32 to 47 of the standard, registers back in place |
| Sha256.Rounds48To63 | libtomcrypt/sha256.c:165-180 | sixteen rounds with rotated arguments and constants written out are rounds 48 to 63 of the standard, registers back in place |
| Sha256.CopyState | libtomcrypt/sha256.c:82-85 | a fresh array with the eight state words |
| Sha256.Feedback | libtomcrypt/sha256.c:186-189 | each state word grows by its register modulo 2^32 |
| Sha256.CompressUnrolled | libtomcrypt/sha256.c:82-190 | the unrolled form computes the standard's compression for every state and block |
| Sha256.CompressRolled | libtomcrypt/sha256.c:82-190 | the rolled form computes the standard's compression for every state and block |
| Sha256.StepInverse | libtomcrypt/sha256.c:99-103 | every round is invertible, whatever the constant and the schedule word |
| Sha256.RoundsBijection | libtomcrypt/sha256.c:97-109 | for every block the 64 rounds are a bijection on the state |
| Sha256.ScheduleReversible | libtomcrypt/sha256.c:92-95 | the recurrence can be run backwards |
| Sha256.BlockFromWindow | libtomcrypt/sha256.c:87-95 | any sixteen consecutive schedule words give back the schedule and the bytes of the block |
| Sha512.ChIsStandard | libtomcrypt/sha512.c:85 | the code's Ch is the one of FIPS 180-4 on all words |
| Sha512.MajIsStandard | libtomcrypt/sha512.c:86 | the code's Maj is the one of FIPS 180-4 on all words |
| Sha512.Rnd | libtomcrypt/sha512.c:134-138 | the macro is one standard round up to renaming the registers, wherever they are |
| Sha512.FillSchedule | libtomcrypt/sha512.c:109-117 | W becomes the expansion of the big-endian words of the block |
| Sha512.UnrolledRounds | libtomcrypt/sha512.c:140-149 | eighty rounds, eight to an iteration with rotated arguments, are the standard's rounds |
| Sha512.ShiftingRounds | libtomcrypt/sha512.c:121-132 | eighty rounds that shift S are the standard's rounds |
| Sha512.Feedback | libtomcrypt/sha512.c:153-156 | each state word grows by its register modulo 2^64 |
| Sha512.CompressUnrolled | libtomcrypt/sha512.c:104-158 | the unrolled form computes the standard's compression for every state and block |
| Sha512.CompressShifting | libtomcrypt/sha512.c:104-158 | the shifting form computes the standard's compression for every state and block |
| Sha512.StepInverse | libtomcrypt/sha512.c:134-138 | every round is invertible, whatever the constant and the schedule word |
| Sha512.RoundsBijection | libtomcrypt/sha512.c:121-132 | for every block the 80 rounds are a bijection on the state |
| Sha512.ScheduleReversible | libtomcrypt/sha512.c:114-117 | the recurrence can be run backwards |
| Sha512.BlockFromWindow | libtomcrypt/sha512.c:109-117 | any sixteen consecutive schedule words give back the schedule and the bytes of the block |
| Sha1.F0IsCh | libtomcrypt/sha1.c:39 | F0 is the standard's Ch on all words |
| Sha1.F2IsMaj | libtomcrypt/sha1.c:41 | F2 is the standard's Maj on all words |
| Sha1.FF0 | libtomcrypt/sha1.c:74 | the macro is a standard round from 0 to 19 up to renaming the registers |
| Sha1.FF1 | libtomcrypt/sha1.c:75 | the macro is a standard round from 20 to 39 up to renaming the registers |
| Sha1.FF2 | libtomcrypt/sha1.c:76 | the macro is a standard round from 40 to 59 up to renaming the registers |
| Sha1.FF3 | libtomcrypt/sha1.c:77 | the macro is a standard round from 60 to 79 up to renaming the registers |
| Sha1.FillSchedule | libtomcrypt/sha1.c:55-70 | W becomes the expansion of the big-endian words of the block |
| Sha1.UnrolledRounds | libtomcrypt/sha1.c:99-132 | the loops of five renamed rounds reach the state of the standard after 80 rounds |
| Sha1.RolledRounds | libtomcrypt/sha1.c:81-95 | the loops that shift five variables reach the same state |
| Sha1.Store | libtomcrypt/sha1.c:140-145 | each state word grows by its register modulo 2^32 |
| Sha1.CompressUnrolled | libtomcrypt/sha1.c:50-148 | the unrolled form computes the standard's compression for every state and block |
| Sha1.CompressRolled | libtomcrypt/sha1.c:50-148 | the rolled form computes the standard's compression for every state and block |
| Sha1.StepInverse | libtomcrypt/sha1.c:74-77 | every round is invertible, whatever its number and schedule word |
| Sha1.RoundsBijection | libtomcrypt/sha1.c:81-95 | for every block the 80 rounds are a bijection on the state |
| Sha1.ScheduleReversible | libtomcrypt/sha1.c:67-70 | the recurrence can be run backwards |
| Sha1.BlockFromWindow | libtomcrypt/sha1.c:55-70 | any sixteen consecutive schedule words give back the schedule and the bytes of the block |
| Md5.FIsStandard | libtomcrypt/md5.c:40 | F is the one of RFC 1321 on all words |
| Md5.GIsStandard | libtomcrypt/md5.c:41 | G is the one of RFC 1321 on all words |
| Md5.FF | libtomcrypt/md5.c:86-87 | the macro is an operation of the first round up to renaming the registers, if the word, rotation and constant are that operation's |
| Md5.GG | libtomcrypt/md5.c:89-90 | the macro is an operation of the second round up to renaming the registers, if the word, rotation and constant are that operation's |
| Md5.HH | libtomcrypt/md5.c:92-93 | the macro is an operation of the third round up to renaming the registers, if the word, rotation and constant are that operation's |
| Md5.II | libtomcrypt/md5.c:95-96 | the macro is an operation of the fourth round up to renaming the registers, if the word, rotation and constant are that operation's |
| Md5.FirstUnrolled | libtomcrypt/md5.c:145-160 | the sixteen calls with arguments written out are operations 0 to 15, registers back in place |
| Md5.SecondUnrolled | libtomcrypt/md5.c:161-176 | the sixteen calls with arguments written out are operations 16 to 31, registers back in place |
| Md5.ThirdUnrolled | libtomcrypt/md5.c:177-192 | the sixteen calls with arguments written out are operations 32 to 47, registers back in place |
| Md5.FourthUnrolled | libtomcrypt/md5.c:193-208 | the sixteen calls with arguments written out are operations 48 to 63, registers back in place |
| Md5.RolledRounds | libtomcrypt/md5.c:124-142 | the table-driven loops that shift four variables reach the state of the standard after 64 operations |
| Md5.LoadBlock | libtomcrypt/md5.c:112-115 | the little-endian words of the block |
| Md5.Store | libtomcrypt/md5.c:211-214 | each state word grows by its register modulo 2^32 |
| Md5.CompressUnrolled | libtomcrypt/md5.c:107-217 | the unrolled form computes the standard's compression for every state and block |
| Md5.CompressRolled | libtomcrypt/md5.c:107-217 | the table-driven form computes the standard's compression for every state and block |
| Md5.StepInverse | libtomcrypt/md5.c:86-96 | every operation is invertible |
| Md5.RoundsBijection | libtomcrypt/md5.c:124-142 | for every block the 64 operations are a bijection on the state |
| Rmd160.FF | libtomcrypt/rmd160.c:52-55 | the macro is a step of the left line, first round, up to renaming the registers, if the word and rotation are that step's |
| Rmd160.GG | libtomcrypt/rmd160.c:57-60 | the macro is a step of the left line, second round, up to renaming the registers, if the word and rotation are that step's |
| Rmd160.HH | libtomcrypt/rmd160.c:62-65 | the macro is a step of the left line, third round, up to renaming the registers, if the word and rotation are that step's |
| Rmd160.II | libtomcrypt/rmd160.c:67-70 | the macro is a step of the left line, fourth round, up to renaming the registers, if the word and rotation are that step's |
| Rmd160.JJ | libtomcrypt/rmd160.c:72-75 | the macro is a step of the left line, fifth round, up to renaming the registers, if the word and rotation are that step's |
| Rmd160.JJJ | libtomcrypt/rmd160.c:97-100 | the macro is a step of the right line, first round, up to renaming the registers, if the word and rotation are that step's |
| Rmd160.III | libtomcrypt/rmd160.c:92-95 | the macro is a step of the right line, second round, up to renaming the registers, if the word and rotation are that step's |
| Rmd160.HHH | libtomcrypt/rmd160.c:87-90 | the macro is a step of the right line, third round, up to renaming the registers, if the word and rotation are that step's |
| Rmd160.GGG | libtomcrypt/rmd160.c:82-85 | the macro is a step of the right line, fourth round, up to renaming the registers, if the word and rotation are that step's |
| Rmd160.FFF | libtomcrypt/rmd160.c:77-80 | the macro is a step of the right line, fifth round, up to renaming the registers, if the word and rotation are that step's |
| Rmd160.LoadBlock | libtomcrypt/rmd160.c:112-115 | the little-endian words of the block |
| Rmd160.LeftRound1 | libtomcrypt/rmd160.c:124-140 | the sixteen calls, with their registers, words and rotations, are steps 0 to 15 of the left line |
| Rmd160.LeftRound2 | libtomcrypt/rmd160.c:142-158 | the sixteen calls, with their registers, words and rotations, are steps 16 to 31 of the left line |
| Rmd160.LeftRound3 | libtomcrypt/rmd160.c:160-176 | the sixteen calls, with their registers, words and rotations, are steps 32 to 47 of the left line |
| Rmd160.LeftRound4 | libtomcrypt/rmd160.c:178-194 | the sixteen calls, with their registers, words and rotations, are steps 48 to 63 of the left line |
| Rmd160.LeftRound5 | libtomcrypt/rmd160.c:196-212 | the sixteen calls, with their registers, words and rotations, are steps 64 to 79 of the left line |
| Rmd160.RightRound1 | libtomcrypt/rmd160.c:214-230 | the sixteen calls, with their registers, words and rotations, are steps 0 to 15 of the right line |
| Rmd160.RightRound2 | libtomcrypt/rmd160.c:232-248 | the sixteen calls, with their registers, words and rotations, are steps 16 to 31 of the right line |
| Rmd160.RightRound3First | libtomcrypt/rmd160.c:251-258 | the first eight calls of the round are steps 32 to 39 of the right line |
| Rmd160.RightRound3Second | libtomcrypt/rmd160.c:259-266 | the last eight calls of the round are steps 40 to 47 of the right line |
| Rmd160.RightRound3 | libtomcrypt/rmd160.c:250-266 | the sixteen calls, with their registers, words and rotations, are steps 32 to 47 of the right line |
| Rmd160.RightRound4 | libtomcrypt/rmd160.c:268-284 | the sixteen calls, with their registers, words and rotations, are steps 48 to 63 of the right line |
| Rmd160.RightRound5 | libtomcrypt/rmd160.c:286-302 | the sixteen calls, with their registers, words and rotations, are steps 64 to 79 of the right line |
| Rmd160.LeftLine | libtomcrypt/rmd160.c:124-212 | the eighty unrolled steps are the left line of the table-driven definition, registers back in place |
| Rmd160.RightLine | libtomcrypt/rmd160.c:214-302 | the eighty unrolled steps are the right line, registers back in place |
| Rmd160.CompressUnrolled | libtomcrypt/rmd160.c:109-312 | the code, with its in-place cross-combination, computes the two-line definition for every state and block |
| Rmd160.StepInverse | libtomcrypt/rmd160.c:52-100 | every step of a line is invertible |
| Rmd160.LineBijection | libtomcrypt/rmd160.c:124-302 | for every block each line is a bijection on the state |
| Folds.FoldAppend | libtomcrypt/tomcrypt_hash.h:327-348 | compressing some blocks and then more is compressing all of them |
| Runs.InvariantHolds | servidor.c:323-416 | what holds at the start and is kept by every enabled step of every thread holds after every run |
| Runs.EnoughSteps | cliente.c:53-200 | if every step makes progress or uses up a bounded allowance, enough steps of any threads make any amount of progress |
| Lists.IsListEmpty | lists.h:26-32 | true exactly for the empty sequence |
| Lists.SizeOfList | lists.h:34-43 | the length of the sequence |
| Lists.AppendLeft | lists.h:45-53 | the descriptor is put in front, or nothing changes if memory is short |
| Lists.AppendRight | lists.h:55-72 | the descriptor is put at the end and the others keep their order, or nothing changes if memory is short |
| Lists.SearchAntecessor | lists.h:74-83 | the node before the first one that holds the descriptor |
| Lists.Unlink | lists.h:89-98 | passing over node i leaves the list of the other nodes in order, the head included, and hands back that node |
| Lists.RemoveRequest | lists.h:85-101 | exactly the first occurrence of the descriptor disappears, the result is again a list, and the node to free is one that held the descriptor and is no longer in the list |
| Server.MainStepKeeps | servidor.c:482-536 | every step of the accepting thread keeps the whole invariant |
| Server.MainInside | servidor.c:482-536 | a step of main is not seen by the thread inside the list lock |
| Server.MainKeepsDescriptors | servidor.c:495-529 | every step of main keeps that the open connection descriptors are exactly the distinct queued ones and the one it holds |
| Server.WorkerInside | servidor.c:327-413 | only the holder of the list lock moves inside it, so at most one serving thread is inside, and lock_statistics is held only by it |
| Server.WorkerEffect | servidor.c:327-413 | what each step of a serving thread does to data, descriptors and history, with main and the appended requests left alone |
| Server.RemovesHead | servidor.c:362-367 | the descriptor removed after doit is still the head of the queue |
| Server.WorkerKeepsOrder | servidor.c:327-413 | every step of a serving thread keeps first-in-first-out order |
| Server.WorkerKeepsBound | servidor.c:327-413 | every step of a serving thread keeps the queue within its bound, although main checks and appends under separate locks |
| Server.WorkerLive | servidor.c:362-367 | closing the head takes it out of the live descriptors, removing it changes none |
| Server.WorkerKeepsDescriptors | servidor.c:327-413 | every step of a serving thread keeps that the open connection descriptors are exactly the distinct queued ones and the one main holds |
| Server.WorkerKeepsCounters | servidor.c:339-353 | every step of a serving thread keeps the counter equations |
| Server.MovesAgree | servidor.c:339-353 | a step inside the lock keeps the counter equations, whatever doit does |
| Server.WorkerKeepsTurn | servidor.c:327-413 | every step of a serving thread keeps what it has made of the data it found equal to a service on the way |
| Server.StepKeeps | servidor.c:323-536 | every enabled step of every thread keeps the whole invariant |
| Server.QueueSafety | servidor.c:323-536 | in every reachable state the queue is within its bound with distinct descriptors, and with the list lock free the taken descriptors and then the queue are the appended ones in order, the open connection descriptors are exactly the queued ones and one that main may hold, and all counters agree |
| Server.NeverStuck | servidor.c:323-536 | provided that doit returns, which is assumed: in every reachable state a serving thread can move if and only if it holds the list lock or the lock is free, so it never waits for lock_statistics; and main can move if and only if it holds the lock or the lock is free, or, at accept, the descriptor offered is not in use |
| Server.MainReadsSize | servidor.c:483-495 | in every reachable state with main at the start of its loop and the lock free, two steps bring main to accept if and only if the queue is shorter than its limit, and back where it was if and only if not |
| Server.MainServesRoom | servidor.c:483-534 | from every reachable state with main at the start of its loop and room in the queue, whatever serving threads do in between, seven steps of main append exactly the descriptor that accept returned, count one arrival and end at the start of the loop |
| Server.AllWaitForDoit | servidor.c:327-413 | while a serving thread is in doit no other serving thread moves and no data change, and main at most accepts once; so a doit that does not return stops the server |
| Headers.EndsAtBlankLine | servidor.c:76-86 | the loop of read_requesthdrs ends if and only if one of the lines left is blank, or nothing is left and its buffer, which the code does not set, holds a blank line |
| Headers.ClosedEarly | servidor.c:76-86 | after the request line `GET / HTTP/1.0` and the end of the data the loop never ends |
| Headers.ReadRequestHdrs | servidor.c:76-86 | on data for which it ends, however reads are cut, the loop stops right after the call that first finds a blank line |
| Server.TurnIsService | servidor.c:327-413 | in every run, from lock to unlock a serving thread does exactly one whole service on the data it found, or nothing if the queue was empty, although main may accept in between |
| Server.StepTowardTaking | servidor.c:327-413 | while requests are waiting every step of a serving thread takes one or is a step toward it, and steps of main do not set it back |
| Server.WaitingAreTaken | servidor.c:323-536 | provided that doit returns, which is assumed and counted as one step: after any reachable state all waiting requests are taken, in order, within 14 steps of serving threads for each, whatever main does |
| ServerState.Shared.constructor | servidor.c:418-439 | all counters of all threads are zero and the queue is empty |
| ServerState.Shared.ReadSize | servidor.c:488-493 | the number of queued descriptors, by walking the list |
| ServerState.Shared.CountArrivals | servidor.c:531-533 | only the arrivals grow, by one |
| ServerState.Shared.ReadHead | servidor.c:362 | the descriptor that has waited longest |
| ServerState.Shared.RemoveHead | servidor.c:367 | the first occurrence of the descriptor leaves the queue and nothing else changes |
| ServerState.Shared.AppendRequest | servidor.c:511-515 | on the linked list: the queue grows by the descriptor at its end and nothing else changes |
| ServerState.Shared.CountContents | servidor.c:287-305 | only the counter of that thread and kind of content goes up |
| ServerState.Shared.ServeNext | servidor.c:327-413 | a turn inside the lock serves the head if there is one: the head leaves the queue, each counter that is due goes up by one, and nothing else changes |
| ClientFiles.FilesKept | cliente.c:71-84 | with two files the requests alternate between them, beginning with the second |
| ClientFifo.CreateSemaphores | cliente.c:259-276 | the first semaphore is one and all others are zero |
| ClientFifo.StepKeepsRing | cliente.c:58-129 | every step keeps the one token at the thread whose turn it is, or with a thread inside |
| ClientFifo.TurnIsModulo | cliente.c:125-128 | going round the ring k times from thread 0 ends at thread k modulo n |
| ClientFifo.OneToken | cliente.c:57-129 | in every reachable state the semaphores and the threads between wait and post add up to one |
| ClientFifo.RequestsGoRound | cliente.c:57-129 | in every run request k is sent by thread k modulo n, for file (k + 1) modulo 2 when there are two |
| ClientFifo.NoDeadlock | cliente.c:57-129 | some thread can always take a step, provided the server answers, a request and its answer being one step |
| ClientFifo.OnlyWaitingBlocks | cliente.c:57-129 | in every reachable state a thread cannot move if and only if it waits for its semaphore and that is zero |
| ClientFifo.EveryThreadAgain | cliente.c:125-128 | after any reachable state every thread sends again within (3n + 1)n steps of any schedule |
| ClientConcur.StepKeepsLockAndBarrier | cliente.c:131-196 | every step keeps mutual exclusion and the count of the barrier |
| ClientConcur.StepKeepsRounds | cliente.c:131-196 | the last arrival at the barrier closes a round in which every thread sent once |
| ClientConcur.LastToArrive | cliente.c:196 | when the barrier has counted all threads but one, all others are blocked in it |
| ClientConcur.StepKeepsLog | cliente.c:131-196 | every step keeps the log equal to the rounds one after the other |
| ClientConcur.BlocksArePermutations | cliente.c:130-197 | in every run the k-th block of n consecutive requests is by all n threads, once each |
| ClientConcur.RequestsAreBalanced | cliente.c:130-197 | in every run each thread has sent one request per complete round and at most one more, and two files alternate |
| ClientConcur.NoDeadlock | cliente.c:196 | some thread can always take a step, provided the server answers, a request and its answer being one step |
| ClientConcur.OnlyLockAndBarrierBlock | cliente.c:130-197 | in every reachable state a thread cannot move if and only if it waits for the lock that another holds, or is counted by the barrier and not released |
| ClientConcur.EveryThreadAgain | cliente.c:130-197 | after any reachable state every thread sends again within 2n(5n + 1) steps of any schedule |
| Rio.Source.Read | csapp.c:543 | a read moves the next bytes of the descriptor into the buffer, at most as many as asked and as the kernel grants, or none |
| Rio.Sink.Write | csapp.c:569 | a write appends a front part of the bytes, or none; it may take nothing without an error, and then errno stays as it was |
| Rio.RioReadn | csapp.c:536-555 | it returns -1 if and only if the last call it made failed hard, and no call before that did; otherwise it returns after delivering exactly min(n, what is left) bytes in order, however reads are cut or interrupted; after a hard error the bytes delivered are a front part, shorter than n |
| Rio.RioWriten | csapp.c:562-579 | the result is -1 if and only if the last call made failed other than by EINTR or took nothing while the last error was not EINTR, no call before it did, and a front part shorter than n is written; otherwise all n bytes are written in order; errno is as those calls leave it |
| Rio.Reader.constructor | csapp.c:623-628 | a new reader has an empty buffer of 8192 bytes and delivers from where the descriptor is |
| Rio.Reader.Refill | csapp.c:596-607 | a buffer that holds bytes is left alone; otherwise exactly one call that is not interrupted is made, for a whole buffer, and its hard error is the result; no byte is lost or repeated |
| Rio.Reader.Read | csapp.c:592-616 | the next bytes of the descriptor, in order: as many as asked for unless that empties the buffer, without a call if the buffer holds any, and zero only at the end; -1 if and only if the last call made failed hard, and no call before that did |
| Rio.Reader.ReadNb | csapp.c:635-654 | the same delivery as the unbuffered rio_readn on the same bytes, and -1 under the same condition |
| Rio.Reader.ReadByte | csapp.c:664-667 | the next byte of the descriptor, or none at its end, or -1 if and only if the last call made failed hard |
| Rio.Reader.ReadLineb | csapp.c:661-681 | stores the data through the first newline, cut at maxlen - 1 bytes or at the end, then a zero byte, whatever the reads were; nothing when there is no data; -1 if and only if the last call made failed hard, and no call before that did |
| Rio.ResultIsCount | csapp.c:666-680 | the result is the number of bytes stored before the zero byte if and only if there was nothing to read or the line ends in a newline; otherwise it is one more |
| Rio.ResultIsOneMore | csapp.c:666-680 | for two bytes without a newline two are stored and the result is three |
| Rio.LineShape | csapp.c:666-678 | a line stops at the end of the data, at the limit, or right after its only newline, and is empty only without data or room |
| Rio.AmpleLimit | csapp.c:666-678 | limits beyond the data make no difference |
| Rio.LinesConcat | csapp.c:661-681 | the lines that repeated calls store, as ReadLines returns them, split any data into pieces whose concatenation is the data |
| Rio.LinesAreLines | csapp.c:661-681 | with a long enough buffer each of the lines that ReadLines returns is a whole line, and only the last may lack its newline |
| Rio.OneLine | csapp.c:661-681 | from the result and the buffer a caller recovers exactly the bytes of the line |
| Rio.ReadLines | csapp.c:661-681 | calling rio_readlineb until it returns 0 reads the data to their end as exactly those lines, whatever the reads were |
| Rio.RunCalls | csapp.c:592-681 | over any run of rio_readnb and rio_readlineb calls the bytes delivered are the next bytes of the descriptor, each once, and how many depends on the calls alone |
| Aleatorio.XorNatTwice | Aleatorio.h:20-26 | unmasking undoes masking |
| Aleatorio.XorBits | Aleatorio.h:20-26 | each bit of a masked integer, negative ones included, is one if and only if the bits of the integer and the mask differ |
| Aleatorio.UpdateIsProduct | Aleatorio.h:21-24 | for a masked seed y the update is 16807 y modulo 2^31 - 1 if and only if 2836 (y / 127773) is at most 16807 (y % 127773) + 2^31 - 1, or, for negative y, the same of -y with less |
| Aleatorio.Ran0IsProduct | Aleatorio.h:16-28 | a call of ran0 is the masked multiplication modulo 2^31 - 1 if and only if its masked argument meets that condition |
| Aleatorio.SchrageIsExact | Aleatorio.h:21-24 | the update is 16807 y modulo 2^31 - 1, and the value before the sign test stays within 32 bits, for every masked seed y of magnitude under 127773 * 757223 |
| Aleatorio.LimitFails | Aleatorio.h:12-24 | for an argument of ran0 that is masked to 127773 * 757223 the new seed is negative and not the product, although the comment allows any seed but MASK; the condition fails there and at its negative, and holds again one above |
| Aleatorio.UpdateIsPermutation | Aleatorio.h:21-24 | on 1 to 2^31 - 2 the update is a permutation, with multiplication by 1407677000 as its inverse |
| Aleatorio.Ran0IsParkMiller | Aleatorio.h:16-28 | k calls multiply the masked seed by 16807 to the power k |
| FullPeriod.PowersOfPeriod | Aleatorio.h:5-9 | 16807 to the power 2^31 - 2 is one modulo 2^31 - 1, and to none of the quotients of that exponent by its prime factors |
| FullPeriod.OrderIsPeriod | Aleatorio.h:5-9 | 16807 is a primitive root: a power of it is one if and only if the exponent is a multiple of 2^31 - 2 |
| FullPeriod.EveryResidue | Aleatorio.h:5-9 | every number from 1 to 2^31 - 2 is a power of 16807 modulo 2^31 - 1 |
| FullPeriod.PeriodIsFull | Aleatorio.h:16-28 | calls of ran0 come back to a seed that is masked to a residue after 2^31 - 2 calls and their multiples and never in between |
| FullPeriod.EverySeedIsReached | Aleatorio.h:16-28 | from any such seed the calls reach every other |
| FullPeriod.UpdateShrinks | Aleatorio.h:21-24 | a masked seed of magnitude 127773 * 757223 or more, which may not be multiplied correctly, becomes smaller in magnitude |
| FullPeriod.UpdateKeepsMultiples | Aleatorio.h:21-24 | for every masked seed the update is a multiple of 2^31 - 1 if and only if the masked seed is |
| FullPeriod.FateOfSeed | Aleatorio.h:12-28 | from every integer seed the calls come to the cycle of full period, except that they come to MASK and stay there if and only if the masked seed is a multiple of 2^31 - 1 |
| FullPeriod.ModulusFails | Aleatorio.h:12-28 | the seed 2024023771 is not MASK and a call on it is exact, but it is at MASK after one call and for ever |
| Aleatorio.Generator.Ran0Step | Aleatorio.h:20-26 | the in-place assignments are one step of the generator on the seed |
| Aleatorio.Generator.Advance | Aleatorio.h:43-47 | from a 31-bit seed, at times from 0 to 2^36, a generator call adds the time, multiplies the masked sum by 16807 modulo 2^31 - 1 and masks again, twice, and the seed stays a 31-bit one |
| Aleatorio.SeedStaysInRange | Aleatorio.h:67-71 | over any run of calls at such times the seed is from 0 to 2^31 - 1 |

## Left out

- The HPSC and HPDC policies of the server: they test a different list from the one they dereference, and read the request line through a buffer of their own.
- HTTP responses, sockets, address lookup, CGI processes and file mapping: foreign calls. A served request is its effect on the counters and the closing of its connection descriptor; the reading end of the pipe that `serve_dynamic` opens for each dynamic request and does not close is not modelled; a client request is one entry of the log.
- The error wrappers of csapp.c, argument parsing, `parse_uri`, `get_filetype` and cgi-bin: they exit, forward, or handle strings simply.
- The floating-point results of the generator: only the integer seed is modelled.
- Inline assembly, MSVC and big-endian variants, `burn_stack`, `zeromem`, hash descriptors and the `*_test` functions; little-endian LOAD32L, STORE32L and STORE64L are modelled by the byte order that memcpy gives on the machines they are for.
- The null checks of `LTC_ARGCHK`; the elapsed-time fields of requests; the proof-of-work loop of libtomcrypt/example.c, which has no termination argument.
- Overflow of the `int` counters of the server and of the `int n` of `rio_readlineb` for a buffer beyond 2^31 bytes: counters are unbounded.
- `read` returning zero before the end of the data: a read moves at least one byte, is interrupted, or fails, except at the end.
- The state of the server before its main loop: the list head, which the code leaves unset after `malloc`, is taken to be empty, the counters to be set before the serving threads run, and `malloc` to succeed in the server.
- Server.NeverStuck: assumes that `doit` returns. It does not if the request has no blank line after its request line, as when a client sends `GET / HTTP/1.0` with a line end and closes (Headers.ClosedEarly), or if a client sends nothing and keeps the connection open, so that `read` does not return. No thread takes a request after that (Server.AllWaitForDoit).
- Server.WaitingAreTaken: makes the same assumption.
- ClientFifo.NoDeadlock: a request and its answer are one step, so it assumes that the server answers.
- ClientConcur.NoDeadlock: makes the same assumption.
- `accept` and `close` as the kernel implements them: a descriptor returned by `accept` is one that is not in use.
- Streaming.Md.Process: the compression function is a parameter that always succeeds; the compression methods of the hash modules are proved equal to the function passed, and never return an error.
- MerkleDamgard.CollisionReduction: asks that the stored lengths tell the lengths apart, as they do under 2^61 bytes, and that the digest shows the whole state, so it does not cover SHA-384.
- Rio.Reader.ReadNb: a user buffer that overlaps the reader's own buffer is not modelled.
- Streaming.EightBytes: the length is a number kept modulo 2^64 and its bytes are quotients, by what a right shift of an unsigned number means; that they stand for the number is Standards.EncodedNumber, but they are not related to the bits of a machine word.
- Primitives.Ror64MovesBits: is proved for the ten counts that SHA-512 uses, of the 63 that the macro allows.
- Sines.OneRadian: that the series is that of the sine, and that the rounding of 64 turns stays under the margin of 2^15 units of 2^-64, are not proved.
