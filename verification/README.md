# Verified model of the NFC stack

This project models the parts of a Zephyr NFC stack where behaviour is hard to see from any one
function, and proves what they do together.  `dafny verify dfyconfig.toml` checks all of it.

Everything is modelled in the form the C code has.  Modules that change static state are classes
whose methods are proved against functions on values; loops over buffers are loops over arrays or
sequences with invariants; pure helpers are functions.  The theorems are about those functions.  A
reader "transceives" by calling the other side's handler; no reply is the empty byte string.

| files | what they model |
|---|---|
| `Crc16`, `CrcDivision` | the four CRCs: ISO 14443-A, the store's CCITT, ISO 15693, FeliCa, and polynomial division |
| `Crypto1`, `Crypto1Register` | the MIFARE Classic cipher, and the 48-bit register as published |
| `Classic`, `ClassicAir` | the emulated card, the reader, the two wired together, and authentication over the air |
| `Fips46`, `Des`, `TripleDes` | DES as FIPS PUB 46-3 states it, the table-driven code, two-key CBC |
| `UltralightImage`, `Ultralight`, `UltralightReader` | the stored image, the Type 2 listener, three-pass authentication, page protection, the page reader, copying a tag |
| `Apdu`, `Router`, `Stack` | the APDU parser, the AID router, and the stack with NDEF and DESFire behind it |
| `Ndef`, `NdefHistory`, `NdefReader`, `SlotVerify` | the Type 4 listener and its blob, its runs told from the commands, the reader through the stack, verification of a stored card |
| `Desfire`, `DesfireBlob`, `DesfireCard`, `DesfireAnswers`, `DesfireReader` | the DESFire image and its blob, the listener and its answers, the reader's chunking |
| `Store`, `StoreBytes` | the card envelope, save and load, the RAM slots |
| `Nfct`, `Pipeline` | fragment assembly, the buffer pool, the queue, and the stack behind them |
| `Aliro` | the Aliro listener with deferred work |
| `Words`, `Octets`, `Bytes` | bytes, words and fixed-width fields |

Where a natural property turned out not to hold of the code, the code is modelled as it is, a concrete
case is given and the exact condition is proved:

- `nfc_util_even_parity32` lacks one fold, so it is a parity only of some bits.  The feedback of CRYPTO1
  loses six of its eighteen taps by that (`Crypto1Register.ClockIff`).  Both sides use it, so card and
  reader of this stack still agree.
- The Classic reader notes key B as found for every sector it reads, without trying it
  (`Classic.ReadCard`).
- A DESFire blob that ends in an empty file is written but not read back: the reader asks for twelve
  bytes before a file that takes eleven.
- A DESFire READ_DATA whose answer was left unfinished makes the next request continue it, on whatever
  file, also past its end.  `DesfireReader.AnsweredExactlyIff` and `SentInsideIff` say when not.
- On NTAG215 and NTAG216 the page reader parses PROT, AUTHLIM and PWD from pages it has not read yet,
  so it tries the passwords 00000000 and FFFFFFFF; `UltralightReader.Reach` says how far it gets.
- A saved Ultralight image does not say how much of it was read, so a tag read in part comes back with
  zero pages that count as read (`UltralightImage.RestoredIff`,
  `PartReadLost`), without its protection.
- A refused Ultralight image has replaced the pages, under the old settings, unless its header was
  refused (`UltralightImage.RefusedKeepsIff`).
- An Aliro session can pass AUTH0 without one when work was still queued at its selection, and a
  command whose work merges with such work is never answered (`Aliro.StaleSessionIff`,
  `Aliro.AnswersCounted`).
- An NFCT group that found no buffer is passed over in silence even if it is too long for one.
- The NDEF listener's test for an empty read cannot fire.
- An NDEF card whose length field says more than its file holds is saved, and the blob is never accepted
  again (`NdefHistory.OutOfRangeLost`, `TwoCommandsLose`).
- A stored NDEF length is taken in sixteen bits, so a blob 65536 bytes too long is accepted
  (`NdefHistory.LoadedIff`).
- DESFire authentication has no second step, so no run of commands authenticates
  (`DesfireAnswers.NeverAuthenticated`).
- DESFire settings come back only as far as their bytes go (`DesfireBlob.SettingsBackIff`).
- The NDEF version 1 name and the DESFire name are the same AID, so which service a version 1 SELECT
  reaches depends on registration order; `NdefReader.Offered` says exactly when the NDEF reader is
  served, and `NdefReader.WrongService` shows it talking to DESFire.

## Model

| member | source | states |
|---|---|---|
| `Crc16.ByteStepIsBitLoop` | src/nfc/protocols/classic/iso14443_crc.c:12-26 | the byte-at-once formula of CRC_A (Annex B of ISO/IEC 14443-3) is eight turns of the bit loop with polynomial 0x8408, for every register and byte; so CRC_A, the store's CRC and the ISO 15693 CRC differ only in initial value and complement |
| `Crc16.ShiftsInjective` | src/nfc/protocols/iso15693_3/iso15693_3_poller_i.c:14-34 | any number of shifts of any of the four registers loses nothing |
| `Crc16.CheckIffAppended` | src/nfc/protocols/classic/iso14443_crc.c:28-50 | a frame longer than two bytes passes the check exactly when it is its payload with the CRC appended |
| `Crc16.AppendPassesIff` | src/nfc/helpers/felica_crc.c:37-64 | appending then checking succeeds exactly for non-empty data: the check refuses frames of two bytes |
| `Crc16.AdjacentDamageDetected` | src/nfc/protocols/iso15693_3/iso15693_3_poller_i.c:36-65 | for all four CRCs and every length, changing one byte or two neighbouring bytes anywhere in a valid frame makes the check fail |
| `Crc16.ComputeByByte` | src/nfc/protocols/classic/iso14443_crc.c:12-26 | the loop computes the CRC defined by single-bit shifts |
| `Crc16.ComputeByBit` | src/nfc/helpers/felica_crc.c:15-35 | the nested bit loops compute the same definition for the MSB-first and the ISO 15693 registers |
| `Crc16.AppendInPlace` | src/nfc/protocols/iso15693_3/iso15693_3_poller_i.c:36-50 | the buffer ends with the CRC of what it held, the rest of it untouched; ISO 15693 without room for it returns 0 and changes nothing |
| `Crc16.CheckFrame` | src/nfc/protocols/classic/iso14443_crc.c:37-50 | the check returns exactly the definition, short frames included |
| `CrcDivision.FrameDivides` | src/nfc/protocols/classic/iso14443_crc.c:10-35 | for all data and all four CRCs: the frame on the air is the data followed by the remainder of dividing it by x^16 + x^12 + x^5 + 1, with the preset of the standard added in front and inverted for ISO 15693 |
| `CrcDivision.UpdateDivides` | src/nfc/helpers/felica_crc.c:15-35 | from any register, running it over data of any length is that division |
| `CrcDivision.AnnexB` | src/nfc/protocols/classic/iso14443_crc.c:10-35 | the two examples of Annex B of ISO/IEC 14443-3 |
| `CrcDivision.Iso15693Example` | src/nfc/protocols/iso15693_3/iso15693_3_poller_i.c:11-50 | the example of ISO/IEC 15693-3 |
| `CrcDivision.FeliCaExample` | src/nfc/helpers/felica_crc.c:12-49 | the polling command of JIS X 6319-4 |
| `CrcDivision.StoreExample` | src/nfc/store/nfc_store.c:151-153 | the store's CRC of 01 02 03 04 |
| `Crypto1.ParityIffHighNibblesEven` | src/nfc/protocols/classic/crypto1.c:21-27 | nfc_util_even_parity32 is the xor of all 32 bits exactly when the high nibbles of the bytes have even parity: one fold is missing |
| `Crypto1.FullParityIsXor` | src/nfc/protocols/classic/crypto1.c:21-27 | with the missing fold it would be the xor of all bits, for every word |
| `Crypto1.ParityMissesBit4` | src/nfc/protocols/classic/crypto1.c:21-27 | a word with one bit set whose computed parity is even |
| `Crypto1.NextEncrypted` | src/nfc/protocols/classic/crypto1.c:69-87 | feeding an encrypted bit back with the key stream moves the register as the plain bit does |
| `Crypto1.WordIsFourBytes` | src/nfc/protocols/classic/crypto1.c:89-110 | crypto1_word is four calls of crypto1_byte, most significant byte first, in state and in output, with and without feedback |
| `Crypto1.EncryptedAbsorption` | src/nfc/protocols/classic/crypto1.c:89-98 | absorbing an encrypted string with feedback leaves the state that absorbing the plain string leaves |
| `Crypto1.DecryptedEncrypts` | src/nfc/protocols/classic/crypto1.c:124-147 | decrypting any cipher text and encrypting the result gives the cipher text back |
| `Crypto1.EncryptedDecrypts` | src/nfc/protocols/classic/crypto1.c:124-147 | and the other way round, for any length |
| `Crypto1.SuccessorAdd` | src/nfc/protocols/classic/crypto1.c:112-122 | the nonce generator stepped a then b times is stepped a + b times |
| `Crypto1.DrawnByte` | src/nfc/protocols/classic/crypto1.c:149-173 | the byte the reader draws after eight steps is the byte of the generator's word that the card compares with |
| `Crypto1.CardAcceptsIff` | src/nfc/protocols/classic/classic_listener.c:113-151 | the card accepts an eight-byte answer exactly when it is the reader's frame for the nonce it decrypts to |
| `Crypto1.ReaderFrameAccepted` | src/nfc/protocols/classic/crypto1.c:149-173 | for every state, nonce and reader nonce, the frame built by crypto1_encrypt_reader_nonce is accepted |
| `Crypto1.CardHearsNonce` | src/nfc/protocols/classic/classic_listener.c:113-151 | the card's state after the frame is the reader's after its plain nonce |
| `Crypto1.Cipher.Init` | src/nfc/protocols/classic/crypto1.c:39-54 | loads the key into the two half registers as the specification lists its bits |
| `Crypto1.Cipher.Bit` | src/nfc/protocols/classic/crypto1.c:69-87 | one step of the register, returning the key stream bit |
| `Crypto1.Cipher.Byte` | src/nfc/protocols/classic/crypto1.c:89-98 | eight steps, least significant bit first |
| `Crypto1.Cipher.Word` | src/nfc/protocols/classic/crypto1.c:100-110 | thirty-two steps in the order that makes it four bytes |
| `Crypto1.Cipher.EncryptFeeding` | src/nfc/protocols/classic/crypto1.c:124-135 | encrypts a buffer while feeding any given bytes into the register, with the state after it |
| `Crypto1.Cipher.Crypt` | src/nfc/protocols/classic/crypto1.c:124-147 | without such bytes it encrypts or decrypts with the key stream, leaving the state after it |
| `Crypto1.Cipher.EncryptReaderNonce` | src/nfc/protocols/classic/crypto1.c:149-173 | produces the reader's frame and the state after it |
| `Crypto1.PrngSuccessor` | src/nfc/protocols/classic/crypto1.c:112-122 | the loop computes n steps of the generator on the byte-swapped word |
| `Crypto1Register.KsIsFiltered` | src/nfc/protocols/classic/crypto1.c:56-67 | the key stream bit is the published filter: two levels of truth functions over twenty bits of the register |
| `Crypto1Register.NextIsClock` | src/nfc/protocols/classic/crypto1.c:69-87 | one step of the code is one clock of a 48-bit shift register with twelve feedback taps |
| `Crypto1Register.ClockIff` | src/nfc/protocols/classic/crypto1.c:21-27 | that clock is the published one, which has eighteen taps, exactly when the six lost taps cancel |
| `Crypto1Register.ClockDiffers` | src/nfc/protocols/classic/crypto1.c:21-27 | a register for which it is not |
| `Crypto1Register.KeyLoaded` | src/nfc/protocols/classic/crypto1.c:39-54 | the key fills the register byte by byte, each byte from its least significant bit |
| `Crypto1Register.StreamIsKeyStream` | src/nfc/protocols/classic/crypto1.c:69-110 | plain or encrypted and at any length, the code's key stream and state are the register's |
| `Crypto1Register.PrngTaps` | src/nfc/protocols/classic/crypto1.c:112-122 | the nonce generator shifts by one and its new bit is the sum of bits 16, 18, 19 and 21 |
| `Crypto1Register.DefaultKeyStream` | src/nfc/protocols/classic/crypto1.c:39-98 | under the key FF FF FF FF FF FF the key stream begins with FF |
| `Classic.SectorsTile` | src/nfc/protocols/classic/classic_i.c:12-70 | sectors cover the blocks of every card type without gap or overlap, and first block, count and sector-of-block agree |
| `Classic.AuthExchange` | src/nfc/protocols/classic/classic_poller.c:66-120 | for every key, cuid and nonces both passes of the handshake are accepted and leave the card with the session the reader's own nonces lead to; the card's answer is, under the reader's key stream, the 96th successor of its nonce |
| `Classic.ReadExchange` | src/nfc/protocols/classic/classic_poller.c:122-161 | from equal ciphers a block read gives the block and leaves the ciphers equal |
| `Classic.ReadAnsweredIff` | src/nfc/protocols/classic/classic_listener.c:153-192 | an authenticated card answers an encrypted frame exactly when it decrypts to a READ, with its CRC, of a block of the authenticated sector |
| `Classic.ProbeAnswered` | src/nfc/protocols/classic/classic_poller.c:163-175 | a type probe is answered exactly when the card has that block: below 20, 64 or 256 by type |
| `Classic.KeepsModel` | src/nfc/protocols/classic/classic_listener.c:194-226 | no command changes the card image |
| `Classic.SeedsWhenEncoded` | src/nfc/protocols/classic/classic_poller.c:247-266 | a 4- or 7-byte UID equal to the session's and encoded in blocks 0 and 1 seeds both ciphers alike throughout the read |
| `Classic.ReadableWhenEncoded` | src/nfc/protocols/classic/classic_poller.c:247-266 | with such a UID and the default key everywhere the card is readable in every sector |
| `Classic.Listener.HandleAuthFirst` | src/nfc/protocols/classic/classic_listener.c:75-111 | the first pass as a function of the card's state |
| `Classic.Listener.HandleAuthSecond` | src/nfc/protocols/classic/classic_listener.c:113-151 | the second pass, accepted or not, as a function of the state |
| `Classic.Listener.HandleRead` | src/nfc/protocols/classic/classic_listener.c:153-192 | an encrypted read as a function of the state |
| `Classic.Listener.OnTagCmd` | src/nfc/protocols/classic/classic_listener.c:194-226 | dispatch on the command, with the whole new state |
| `Classic.AuthAnswered` | src/nfc/protocols/classic/classic_listener.c:113-151 | the second pass is answered exactly when the frame is accepted, whatever key and UID the reader used |
| `Classic.Auth` | src/nfc/protocols/classic/classic_poller.c:66-120 | against the listener it succeeds exactly when the card accepts the frame; with the card's key it does, and the ciphers are synchronised |
| `Classic.ReadBlock` | src/nfc/protocols/classic/classic_poller.c:122-161 | against a synchronised listener it returns the block and stays synchronised |
| `Classic.DetectType` | src/nfc/protocols/classic/classic_poller.c:163-175 | finds the type of every known card |
| `Classic.ReadSector` | src/nfc/protocols/classic/classic_poller.c:228-281 | a sector with the default key is read block by block, once and in order; one that refuses it is passed over |
| `Classic.ReadBlocks` | src/nfc/protocols/classic/classic_poller.c:244-282 | the block loop: every block once, in order, and both keys noted as found |
| `Classic.ReadCard` | src/nfc/protocols/classic/classic_poller.c:195-290 | on a card where some sectors have the default key and the others refuse it: the right type, the read mask exactly the blocks of those sectors, each asked for once in order and byte for byte right, both key masks exactly those sectors, UID, SAK and ATQA as blocks 0 and 1 spell them, and success exactly if sector 0 is among them; with all of them the whole card |
| `ClassicAir.KeyBytesLoaded` | src/nfc/protocols/classic/classic_listener.c:38-51 | six key bytes are the register they are loaded into, bit for bit in the order of the air |
| `ClassicAir.DefaultKeyIff` | src/nfc/protocols/classic/classic_i.h:20 | a sector has the default key exactly when its trailer begins with six bytes FF |
| `ClassicAir.FirstPass` | src/nfc/protocols/classic/classic_listener.c:53-111 | in terms of the image only: the card sends 10 00 00 and its sector, and its register is the first six bytes of the trailer followed by the nonce added to four UID bytes |
| `ClassicAir.SecondPass` | src/nfc/protocols/classic/classic_listener.c:113-151 | over the register: which frames the card accepts, and that its answer is the 96th successor under the key stream that follows |
| `Des.IpIsInitial` | src/nfc/protocols/ultralight/ultralight_des.c:208-217 | the bit-swapping network is the initial permutation of FIPS 46-3 with both halves rotated left by one |
| `Des.FpIsFinal` | src/nfc/protocols/ultralight/ultralight_des.c:222-231 | the final network, on rotated halves, is the inverse permutation of the standard |
| `Des.FpIp` | src/nfc/protocols/ultralight/ultralight_des.c:208-231 | the final network undoes the initial one |
| `Des.IpFp` | src/nfc/protocols/ultralight/ultralight_des.c:208-231 | and the initial one the final one |
| `Des.BoxesSum` | src/nfc/protocols/ultralight/ultralight_des.c:236-249 | the eight merged tables add up to P of the eight substitution boxes, rotated, for all inputs |
| `Des.RoundIsF` | src/nfc/protocols/ultralight/ultralight_des.c:236-249 | one round of the code is one round of the standard on rotated halves |
| `Des.SpreadIsChoice1` | src/nfc/protocols/ultralight/ultralight_des.c:253-277 | the table-driven start of the key schedule is permuted choice 1 |
| `Des.ScheduleAgrees` | src/nfc/protocols/ultralight/ultralight_des.c:253-306 | after any number of rounds the key words hold the round keys of the standard, group by group |
| `Des.EncryptsAsStandard` | src/nfc/protocols/ultralight/ultralight_des.c:308-346 | under every key and on every block the code is the encryption of FIPS 46-3 |
| `Des.DecryptsAsStandard` | src/nfc/protocols/ultralight/ultralight_des.c:313-346 | with the reversed schedule it is the decryption of FIPS 46-3 |
| `Des.RoundsUndone` | src/nfc/protocols/ultralight/ultralight_des.c:325-346 | reversed keys and exchanged halves undo any number of rounds, whatever the tables hold |
| `Des.EcbUndone` | src/nfc/protocols/ultralight/ultralight_des.c:313-346 | the reversed schedule undoes the schedule, for any key words |
| `Des.DecryptEncrypt` | src/nfc/protocols/ultralight/ultralight_des.c:308-346 | on bytes: decrypting undoes encrypting |
| `Des.EncryptDecrypt` | src/nfc/protocols/ultralight/ultralight_des.c:308-346 | and encrypting undoes decrypting |
| `Des.BytesAsStandard` | src/nfc/protocols/ultralight/ultralight_des.c:308-346 | on key and block bytes: what the code computes is the standard's encryption and decryption |
| `Des.Context.SetKey` | src/nfc/protocols/ultralight/ultralight_des.c:253-306 | the loop fills the schedule array with the specified key words |
| `Des.Context.SetKeyDec` | src/nfc/protocols/ultralight/ultralight_des.c:313-323 | the in-place swaps leave the schedule with its rounds reversed |
| `Des.Context.CryptEcb` | src/nfc/protocols/ultralight/ultralight_des.c:325-346 | the unrolled double rounds compute the cipher of the old input, input and output possibly one buffer |
| `TripleDes.DecryptedEncrypted` | src/nfc/protocols/ultralight/ultralight_3des.c:39-61 | two-key decryption undoes two-key encryption of a block |
| `TripleDes.EncryptedDecrypted` | src/nfc/protocols/ultralight/ultralight_3des.c:39-61 | and the other way round |
| `TripleDes.OneKeyIsDes` | src/nfc/protocols/ultralight/ultralight_3des.c:39-61 | with equal key halves it is single DES |
| `TripleDes.BlockAsStandard` | src/nfc/protocols/ultralight/ultralight_3des.c:39-61 | a block is encrypted, decrypted and encrypted again as FIPS 46-3 says under the two key halves |
| `TripleDes.CbcRoundTrip` | src/nfc/protocols/ultralight/ultralight_3des.c:63-107 | chained decryption undoes chained encryption for every key, vector and number of blocks |
| `TripleDes.CbcRoundTripBack` | src/nfc/protocols/ultralight/ultralight_3des.c:63-107 | and the other way round |
| `TripleDes.CbcBlocks` | src/nfc/protocols/ultralight/ultralight_3des.c:63-83 | every block is added to the one encrypted before it, the first to the vector |
| `TripleDes.Block` | src/nfc/protocols/ultralight/ultralight_3des.c:39-61 | the three passes through one context give the block cipher, in place or not |
| `TripleDes.Encrypt` | src/nfc/protocols/ultralight/ultralight_3des.c:63-83 | the loop writes the chained encryption of what the input held and touches nothing else, also in place or overlapping behind the input |
| `TripleDes.Decrypt` | src/nfc/protocols/ultralight/ultralight_3des.c:85-107 | the same for decryption |
| `UltralightImage.RoundTrip` | src/nfc/protocols/ultralight/ultralight.c:100-281 | every image that is written is accepted, whatever was loaded before, and gives the restored image |
| `UltralightImage.RestoredIff` | src/nfc/protocols/ultralight/ultralight.c:100-281 | that is the image that was written exactly when it was read completely, its kind and variant are those of its page count and nothing lies past its end |
| `UltralightImage.RefusedKeepsIff` | src/nfc/protocols/ultralight/ultralight.c:167-281 | a refused image leaves the old one in place exactly when its header was refused |
| `UltralightImage.PartReadLost` | src/nfc/protocols/ultralight/ultralight.c:100-281 | a tag read in part, whatever its first pages, comes back as read completely with zeros |
| `UltralightImage.RefusedWipes` | src/nfc/protocols/ultralight/ultralight.c:183-196 | four bytes that announce no pages are refused and leave no image |
| `UltralightImage.LoadedWhole` | src/nfc/protocols/ultralight/ultralight.c:167-281 | in an accepted image every page counts as read and the kind follows from their number |
| `UltralightImage.LoadedPage` | src/nfc/protocols/ultralight/ultralight.c:208-211 | where in the blob the pages of an accepted image come from |
| `UltralightImage.LoadedVariant` | src/nfc/protocols/ultralight/ultralight.c:57-69 | the variant stored, or the one that goes with the page count |
| `UltralightImage.SettingsKnownIff` | src/nfc/protocols/ultralight/ultralight.c:428-466 | the settings are known exactly on a password tag once AUTH0 has been read |
| `UltralightImage.TailAccepted` | src/nfc/protocols/ultralight/ultralight.c:213-277 | what stands behind the pages: any non-zero flag, at most three counters and three tearing flags |
| `UltralightImage.ImageBytes` | src/nfc/protocols/ultralight/ultralight.c:129-139 | the stored bytes: version, variant, page count, pages |
| `UltralightImage.TailBytes` | src/nfc/protocols/ultralight/ultralight.c:141-163 | and behind them version, signature, counters and tearing flags |
| `UltralightImage.Save` | src/nfc/protocols/ultralight/ultralight.c:100-165 | the copying loops write the layout, or nothing when it does not fit |
| `UltralightImage.Load` | src/nfc/protocols/ultralight/ultralight.c:167-281 | the page loop and the checks compute the specified result, and what is left behind by a refusal |
| `Ultralight.ShiftData` | src/nfc/protocols/ultralight/ultralight_3des.c:14-23 | the loop rotates eight bytes of a buffer and nothing else |
| `Ultralight.RotatedBytes` | src/nfc/protocols/ultralight/ultralight_3des.c:14-23 | each byte moves one place to the front, the first to the end |
| `Ultralight.AcceptsIff` | src/nfc/protocols/ultralight/ultralight_listener_t2.c:184-219 | the card accepts exactly the proof, for some RndA, of the RndB it sent |
| `Ultralight.ThreePass` | src/nfc/protocols/ultralight/ultralight_listener_t2.c:165-219 | on values: the exchange with the key in pages 44 to 47 succeeds on both sides for all random numbers |
| `Ultralight.Authenticate` | src/nfc/protocols/ultralight/ultralight_poller_i.c:213-262 | against the listener, for all RndA and RndB: the reader with the bytes of pages 44 to 47 and the card convince each other; for any key the card ends authenticated exactly when the proof made with it decrypts to the rotated RndB; on other card types nothing happens |
| `Ultralight.BlobKeyDecides` | src/nfc/protocols/ultralight/ultralight_3des.c:34-37 | a card loaded from a blob seals RndB under its bytes 180 to 195 and accepts exactly the proofs made with them |
| `Ultralight.SettingsInBlob` | src/nfc/protocols/ultralight/ultralight.c:428-466 | AUTH0, PROT, AUTHLIM, PWD and PACK are these bytes of the blob |
| `Ultralight.OpenFromBlob` | src/nfc/protocols/ultralight/ultralight_listener_t2.c:285-295 | a password tag is open from the start exactly when AUTH0 is FF or PROT is not set |
| `Ultralight.PasswordAnswered` | src/nfc/protocols/ultralight/ultralight_listener_t2.c:132-148 | PWD_AUTH is answered exactly when it gives the stored password, with the stored PACK |
| `Ultralight.QueriesAnswered` | src/nfc/protocols/ultralight/ultralight_listener_t2.c:99-130 | which field answers GET_VERSION, READ_SIG, READ_CNT and CHECK_TEARING |
| `Ultralight.ReadAnswered` | src/nfc/protocols/ultralight/ultralight_listener_t2.c:66-97 | READ gives four pages, or one zero byte if one of them is locked |
| `Ultralight.PagesInBlob` | src/nfc/protocols/ultralight/ultralight_listener_t2.c:66-97 | those are sixteen bytes of the blob, zero past the last page |
| `Ultralight.OthersIgnored` | src/nfc/protocols/ultralight/ultralight_listener_t2.c:221-259 | a second pass of another length or without a first, and any other command, change nothing and get no answer |
| `Ultralight.Seal` | src/nfc/protocols/ultralight/ultralight_poller_i.c:239-246 | the in-place buffer ends as the proof, its second half the vector for the card's answer |
| `Ultralight.LoadedProtected` | src/nfc/protocols/ultralight/ultralight_listener_t2.c:273-297 | a freshly loaded image with protection on and PROT set starts locked |
| `Ultralight.OpenIff` | src/nfc/protocols/ultralight/ultralight_listener_t2.c:132-148 | after any run of commands a locked card is open exactly when the run gave its password, and nothing else in its state changed |
| `Ultralight.ReadAfterRun` | src/nfc/protocols/ultralight/ultralight_listener_t2.c:45-97 | what a READ answers after any run: the pages if the password came or none of the four is protected, else one zero byte |
| `Ultralight.ProtectedPagesInvisible` | src/nfc/protocols/ultralight/ultralight_listener_t2.c:45-148 | two cards that differ only at or above AUTH0, in the password and in PACK answer every run alike until one hears its password |
| `Ultralight.Listener.LoadImage` | src/nfc/protocols/ultralight/ultralight_listener_t2.c:273-297 | an accepted image replaces the old one, its settings are parsed and access is open only if nothing is protected; a refused one leaves settings and access as they were, with the pages the parser left |
| `Ultralight.Listener.HandleRead` | src/nfc/protocols/ultralight/ultralight_listener_t2.c:66-97 | the loop answers as specified, zero past the end and one zero byte when a page is locked |
| `Ultralight.Listener.HandleAuthStart` | src/nfc/protocols/ultralight/ultralight_listener_t2.c:165-182 | first pass with the whole new state |
| `Ultralight.Listener.HandleAuthCont` | src/nfc/protocols/ultralight/ultralight_listener_t2.c:184-219 | second pass with the whole new state |
| `Ultralight.Listener.HandlePwdAuth` | src/nfc/protocols/ultralight/ultralight_listener_t2.c:132-148 | opens exactly on the stored password of a password tag |
| `Ultralight.Listener.OnTagCmd` | src/nfc/protocols/ultralight/ultralight_listener_t2.c:221-259 | dispatch with the whole new state; image and settings never change |
| `UltralightReader.TryPwdAuth` | src/nfc/protocols/ultralight/ultralight_poller.c:73-102 | succeeds exactly when one of the passwords it tries opens the card |
| `UltralightReader.CopyReadChunk` | src/nfc/protocols/ultralight/ultralight_poller.c:104-126 | copies up to four pages, never past the page count, and updates pages_read |
| `UltralightReader.ReadChunk` | src/nfc/protocols/ultralight/ultralight_poller.c:138-173 | when a chunk ends the read, what it copies and what it does to the card |
| `UltralightReader.StopsIff` | src/nfc/protocols/ultralight/ultralight_poller.c:138-173 | against a freshly loaded card the reader gives up exactly at the chunk with the first protected page, unless that is the last chunk and it knows the password |
| `UltralightReader.ReadPages` | src/nfc/protocols/ultralight/ultralight_poller.c:128-176 | whatever the card, pages below pages_read are the card's or zero past its end and nothing else is touched; against a freshly loaded card of the same type pages_read is exactly Reach |
| `UltralightReader.LargeTagReach` | src/nfc/protocols/ultralight/ultralight_poller.c:73-176 | on NTAG215 and NTAG216 an image protected from the last chunk on is read in full exactly when its password is one of the two tried blindly |
| `UltralightReader.SmallTagReach` | src/nfc/protocols/ultralight/ultralight_poller.c:73-176 | on NTAG213 it always is |
| `UltralightReader.LockedTags` | src/nfc/protocols/ultralight/ultralight_poller.c:73-176 | an NTAG215 left at page 132 of 135, an NTAG213 read to its end |
| `UltralightReader.CopyReads` | src/nfc/protocols/ultralight/ultralight_listener_t2.c:45-97 | a tag of known kind read to the end, saved and loaded answers every READ as the original |
| `UltralightReader.PartialCopyOpen` | src/nfc/protocols/ultralight/ultralight_listener_t2.c:273-297 | the copy of a password tag whose PROT was not read serves what was read, and zeros, to everyone |
| `UltralightReader.CopyTag` | src/nfc/protocols/ultralight/ultralight_poller.c:128-176 | reading, saving and loading a tag: succeeds exactly when the image fits; complete copies answer alike, others have lost their protection with their last pages |
| `Apdu.ParseIff` | src/nfc/framing/apdu_assembler.c:51-116 | the parser accepts exactly the encodings of expressible commands and returns what was encoded |
| `Router.FindFirst` | src/nfc/router/aid_router.c:50-60 | the service found is the one registered first under the AID |
| `Router.ActiveIff` | src/nfc/router/aid_router.c:116-185 | after any history a service is active exactly when it is the one of the latest matched SELECT with no clear or field loss since |
| `Router.SessionsKept` | src/nfc/router/aid_router.c:122-185 | over every history, whatever callbacks services have, the calls follow a session automaton: commands only to the selected service, its own selection first, one deselect right before another is chosen, the field loss to the active service |
| `Router.OneAnswer` | src/nfc/router/aid_router.c:132-185 | a command is answered once, or not at all exactly when the service it is for lacks the callback |
| `Router.OwnAnswers` | src/nfc/router/aid_router.c:132-185 | the router itself answers exactly 6A82 to a SELECT nobody registered and 6986 while no service is active |
| `Router.AidRouter.Register` | src/nfc/router/aid_router.c:94-114 | registers exactly when the AID has 1 to 16 bytes and there is room |
| `Router.AidRouter.FindAid` | src/nfc/router/aid_router.c:50-60 | the loop finds the first match or none |
| `Router.AidRouter.OnApdu` | src/nfc/router/aid_router.c:132-185 | the calls made, in order, and the new active service |
| `Router.AidRouter.OnFieldOff` | src/nfc/router/aid_router.c:122-130 | the call made and no active service |
| `Stack.OneResponse` | src/nfc/framing/apdu_assembler.c:133-162 | any buffer in any state of the stack gets exactly one response of 2 to 255 bytes, 6700 if it is no command, and the invariant is kept |
| `Stack.RunAnswered` | src/nfc/framing/apdu_assembler.c:125-162 | over every run of buffers, field losses, registrations and clears there are exactly as many responses as buffers, each of 2 to 255 bytes |
| `Stack.Device.OnBuffer` | src/nfc/framing/apdu_assembler.c:133-162 | the same for the code: one response if initialised, none otherwise, and on every path the last reference to the buffer is dropped |
| `Stack.Device.Route` | src/nfc/router/aid_router.c:132-185 | the router's calls performed one by one on the services give the specified responses and state |
| `Stack.Device.OnFieldOff` | src/nfc/framing/apdu_assembler.c:125-131 | the whole new state of router and services |
| `Stack.FieldOffForgets` | src/nfc/framing/apdu_assembler.c:125-131 | nothing is active afterwards, the active service forgot its session, and both images are kept |
| `Ndef.DeserializeSerialized` | src/nfc/protocols/ndef/ndef.c:35-120 | a blob is read back exactly when the stored file length is two plus the length in the file, and then gives the data cut to it |
| `Ndef.Answered` | src/nfc/protocols/ndef/ndef_listener.c:263-290 | every command gets one answer of 2 to 255 bytes; the container and lengths never change, the file only on a writable card with the file selected, and every change is notified once |
| `Ndef.ReadAfterUpdate` | src/nfc/protocols/ndef/ndef_listener.c:174-261 | what was written is read back and every other byte is as it was |
| `NdefHistory.SelectAnswered` | src/nfc/protocols/ndef/ndef_listener.c:121-155 | a SELECT is answered 9000 exactly when it names E103 or E104, which is then selected; every refusal has its status word and changes nothing |
| `NdefHistory.ReadAnswered` | src/nfc/protocols/ndef/ndef_listener.c:157-223 | READ BINARY gives the bytes of the selected file from the offset on, as many as asked for, as there are and as fit, and changes nothing |
| `NdefHistory.UpdateAnswered` | src/nfc/protocols/ndef/ndef_listener.c:225-261 | UPDATE BINARY is answered 9000 exactly on a writable card with the NDEF file selected and data that ends inside it; then those bytes and no others are replaced, otherwise nothing changes |
| `NdefHistory.RunIs` | src/nfc/protocols/ndef/ndef_listener.c:121-290 | after every run, told from the commands alone: the selected file is the one last named, and every byte of the file is that of the latest write covering it or as it was |
| `NdefHistory.NewCard` | src/nfc/protocols/ndef/ndef_listener.c:353-383 | the container and file of a new card |
| `NdefHistory.ImageKept` | src/nfc/protocols/ndef/ndef_listener.c:353-383 | a card that starts from an image keeps its container, but for the access byte, and its file up to the stored length |
| `NdefHistory.SavedBytes` | src/nfc/protocols/ndef/ndef.c:35-65 | the stored bytes: version, container, length field and message |
| `NdefHistory.LoadedIff` | src/nfc/protocols/ndef/ndef.c:86-120 | which blobs are accepted, with the length taken in sixteen bits |
| `NdefHistory.WrappedBlob` | src/nfc/protocols/ndef/ndef.c:86-120 | a blob 65536 bytes too long is accepted |
| `NdefHistory.OutOfRangeLost` | src/nfc/protocols/ndef/ndef_listener.c:76-97 | a card whose length field exceeds the file is saved whole, and that blob is never accepted again |
| `NdefHistory.TwoCommandsLose` | src/nfc/protocols/ndef/ndef_listener.c:225-316 | two commands lead there from a new card |
| `Ndef.SomethingAsked` | src/nfc/protocols/ndef/ndef_listener.c:157-172 | inside a file a read never asks for zero bytes, so that branch of the listener is dead |
| `Ndef.SavedIff` | src/nfc/protocols/ndef/ndef_listener.c:306-316 | a card in range is saved exactly when its message and 18 bytes fit the buffer |
| `Ndef.LoadSaved` | src/nfc/protocols/ndef/ndef_listener.c:306-340 | saving any card in range and loading into any other carries over container and message |
| `Ndef.Listener.HandleSelectFile` | src/nfc/protocols/ndef/ndef_listener.c:121-155 | file selection with its three errors |
| `Ndef.Listener.HandleReadBinary` | src/nfc/protocols/ndef/ndef_listener.c:174-223 | the slice read, cut to the file and to 253 bytes |
| `Ndef.Listener.HandleUpdateBinary` | src/nfc/protocols/ndef/ndef_listener.c:225-261 | the write, with its errors and the notification |
| `Ndef.Listener.Handle` | src/nfc/protocols/ndef/ndef_listener.c:263-290 | dispatch with the whole new state |
| `Ndef.Listener.SaveBlob` | src/nfc/protocols/ndef/ndef_listener.c:306-316 | the blob, and the file length brought up to date |
| `Ndef.Listener.LoadBlob` | src/nfc/protocols/ndef/ndef_listener.c:318-340 | the new data, also when the blob is refused after its header |
| `NdefReader.SelectApp` | src/nfc/protocols/ndef/ndef_poller.c:84-113 | succeeds exactly when a service is registered under one of the two names; that service is active, and it is NDEF exactly when the first name found is registered to it |
| `NdefReader.WrongService` | src/nfc/protocols/ndef/ndef_poller.c:84-113 | a registration after which the reader reports success while DESFire is active |
| `NdefReader.ReadMessage` | src/nfc/protocols/ndef/ndef_poller.c:294-323 | the chunk loop returns the message in the least number of reads |
| `NdefReader.ReadNdef` | src/nfc/protocols/ndef/ndef_poller.c:211-331 | through parser and router, from any state, the reader returns exactly the container and the first 2 + NLEN bytes, for every MLe, in NLEN over min(max(MLe, 2) - 1, 253) reads rounded up |
| `NdefReader.Verify` | src/nfc/applets/nfc_applet_verify.c:34-131 | a saved card, loaded and polled, compares equal to the loaded model whenever its length is in range and its container names the file or is blank |
| `SlotVerify.SaveLoadVerify` | src/nfc/applets/nfc_applet_verify.c:53-131 | from any state of a listener with its length in range and a container that names the file or is blank: saved into a slot, its body is accepted, and loaded into another listener and read over the air it compares equal |
| `Desfire.SerializeLayout` | src/nfc/protocols/desfire/desfire.c:110-196 | a successful write produces exactly the layout, and only within the limits |
| `Desfire.SettingsBack` | src/nfc/protocols/desfire/desfire.c:60-108 | file settings come back as far as they are stored |
| `Desfire.RoundTrip` | src/nfc/protocols/desfire/desfire.c:110-301 | what was written is read back exactly when it does not end in an empty file, and then with every application, key, file and byte |
| `Desfire.EmptyFileLost` | src/nfc/protocols/desfire/desfire.c:271-273 | a smallest image that is written but not read back |
| `DesfireBlob.SettingsLayout` | src/nfc/protocols/desfire/desfire.c:60-84 | the eight settings bytes by file type |
| `DesfireBlob.SettingsBackIff` | src/nfc/protocols/desfire/desfire.c:60-108 | settings come back as they were exactly when the value fits three, four or two bytes by type |
| `DesfireBlob.ExactRoundTrip` | src/nfc/protocols/desfire/desfire.c:110-301 | an image comes back as it was written exactly when all settings fit and it does not end in an empty file |
| `DesfireBlob.SerializeIff` | src/nfc/protocols/desfire/desfire.c:110-196 | writing succeeds exactly within the limits and with room for the image and four bytes behind the last file; the two errors say which failed |
| `DesfireBlob.AcceptedIsLayout` | src/nfc/protocols/desfire/desfire.c:198-301 | whatever blob is accepted, the image is within the limits and its layout is the blob, up to settings bytes that are not looked at |
| `Desfire.Write` | src/nfc/protocols/desfire/desfire.c:110-196 | the nested loops compute the specified result, errors included |
| `Desfire.Read` | src/nfc/protocols/desfire/desfire.c:198-301 | the nested loops compute the specified result, refusals included |
| `DesfireCard.Answered` | src/nfc/protocols/desfire/desfire_listener.c:489-556 | every command gets one answer of 2 to 255 bytes, the image never changes and the frame counter stays in range |
| `DesfireAnswers.FileSettingsAnswered` | src/nfc/protocols/desfire/desfire_listener.c:198-249 | GET_FILE_SETTINGS decodes to the settings of the first file with the number, with every error |
| `DesfireAnswers.ValueAnswered` | src/nfc/protocols/desfire/desfire_listener.c:360-396 | GET_VALUE gives the first four bytes of a value file, with every error |
| `DesfireAnswers.ReadAnswered` | src/nfc/protocols/desfire/desfire_listener.c:286-463 | the refusals of READ_DATA and READ_RECORDS, in order, and the shape of the answer |
| `DesfireAnswers.SelectAnswered` | src/nfc/protocols/desfire/desfire_listener.c:266-284 | SELECT_APPLICATION starts a session in the first application with the identifier, or in none |
| `DesfireAnswers.AuthenticateAnswered` | src/nfc/protocols/desfire/desfire_listener.c:465-475 | authentication begins exactly on a card whose master key is not zero |
| `DesfireAnswers.AppIdsAnswered` | src/nfc/protocols/desfire/desfire_listener.c:159-174 | the identifiers of all applications, or the length error |
| `DesfireAnswers.FileIdsAnswered` | src/nfc/protocols/desfire/desfire_listener.c:176-196 | the file numbers of the selected application |
| `DesfireAnswers.KeySettingsAnswered` | src/nfc/protocols/desfire/desfire_listener.c:143-157 | the key settings of the application or of the card |
| `DesfireAnswers.KeyVersionAnswered` | src/nfc/protocols/desfire/desfire_listener.c:251-264 | only key 0 has a version |
| `DesfireAnswers.FreeMemoryAnswered` | src/nfc/protocols/desfire/desfire_listener.c:132-141 | the free memory, least significant byte first |
| `DesfireAnswers.OtherAnswered` | src/nfc/protocols/desfire/desfire_listener.c:489-556 | anything else is refused |
| `DesfireAnswers.VersionLayout` | src/nfc/protocols/desfire/desfire.c:44-58 | the fields of the 28 version bytes |
| `DesfireAnswers.VersionAnswered` | src/nfc/protocols/desfire/desfire_listener.c:97-130 | GET_VERSION and two continuations give hardware, software and the rest |
| `DesfireAnswers.NeverAuthenticated` | src/nfc/protocols/desfire/desfire_listener.c:266-556 | no run of commands authenticates: there is no second step |
| `DesfireAnswers.SealedFilesStaySealed` | src/nfc/protocols/desfire/desfire_listener.c:286-347 | so a file that is not plain is never read, whatever was sent before |
| `DesfireCard.Listener.CmdGetVersion` | src/nfc/protocols/desfire/desfire_listener.c:97-130 | frames of 7, 7 and 14 bytes |
| `DesfireCard.Listener.CmdReadFrom` | src/nfc/protocols/desfire/desfire_listener.c:314-346 | the piece read and the continuation state, wrap-around included |
| `DesfireCard.Listener.CmdSelectApplication` | src/nfc/protocols/desfire/desfire_listener.c:266-284 | resets the session and selects the first application with the id |
| `DesfireCard.Listener.CmdGetApplicationIds` | src/nfc/protocols/desfire/desfire_listener.c:159-174 | the loop lists the three bytes of every application, or reports that they do not fit |
| `DesfireCard.Listener.CmdGetFileIds` | src/nfc/protocols/desfire/desfire_listener.c:176-196 | the loop lists the file numbers of the selected application |
| `DesfireCard.Listener.CmdGetFileSettings` | src/nfc/protocols/desfire/desfire_listener.c:198-249 | the settings of a file by its type |
| `DesfireCard.Listener.CmdGetValue` | src/nfc/protocols/desfire/desfire_listener.c:360-396 | the value of a value file, with its errors |
| `DesfireCard.Listener.CmdAuthenticate` | src/nfc/protocols/desfire/desfire_listener.c:86-95 | goes to the first step exactly when the loop finds a master key byte that is not zero |
| `DesfireCard.Listener.Handle` | src/nfc/protocols/desfire/desfire_listener.c:489-556 | dispatch to the commands with the whole new state |
| `DesfireReader.Continues` | src/nfc/protocols/desfire/desfire_poller_i.c:50-97 | only a version answer in progress is continued with more to come, from any state of the stack: the reader's loop ends |
| `DesfireReader.SendChunks` | src/nfc/protocols/desfire/desfire_poller_i.c:50-97 | terminates against the stack; returns the payload of a single answer, or all frames of a version answer |
| `DesfireReader.GetVersion` | src/nfc/protocols/desfire/desfire_listener.c:97-130 | reassembles the 28 bytes the card built, from any session without one in progress |
| `DesfireReader.PieceRead` | src/nfc/protocols/desfire/desfire_listener.c:286-347 | a request of at most 253 bytes is answered with exactly its slice |
| `DesfireReader.AnsweredExactlyIff` | src/nfc/protocols/desfire/desfire_listener.c:314-346 | a request for at most 253 bytes inside a file is answered with exactly its slice if and only if no answer was left unfinished, or what that left over is the same slice |
| `DesfireReader.UnfinishedGoesOn` | src/nfc/protocols/desfire/desfire_listener.c:325-328 | otherwise it is answered from where the unfinished answer stopped, whatever its offset |
| `DesfireReader.SentInsideIff` | src/nfc/protocols/desfire/desfire_listener.c:314-346 | the bytes sent lie inside the file exactly when no answer was left unfinished past its end |
| `DesfireReader.SentOutside` | src/nfc/protocols/desfire/desfire_listener.c:314-346 | otherwise all 253 bytes come from behind the file |
| `DesfireReader.WrongSlice` | src/nfc/protocols/desfire/desfire_listener.c:325-328 | after an unfinished read of 256 bytes a request for the first three is answered with the last three |
| `DesfireReader.MemorySent` | src/nfc/protocols/desfire/desfire_listener.c:314-346 | and an empty request for a shorter file with 253 bytes from behind it |
| `DesfireReader.ReadFileData` | src/nfc/protocols/desfire/desfire_poller_i.c:286-347 | the chunk loop returns exactly the requested slice in length over 253 commands rounded up |
| `Store.SealedIntact` | src/nfc/store/nfc_store.c:143-156 | a sealed body passes the checksum test |
| `Store.EnvelopeAccepted` | src/nfc/store/nfc_store.c:225-261 | the envelope of any payload that fits 16 bits is accepted and gives the payload back |
| `Store.DamageNoticed` | src/nfc/store/nfc_store.c:225-261 | an accepted envelope with one byte or two neighbouring bytes changed, anywhere, is rejected |
| `Store.PackLayout` | src/nfc/store/nfc_store.c:449-487 | the entry loop produces the entries of exactly the services that serialise, within the buffer |
| `StoreBytes.EntryBytes` | src/nfc/store/nfc_store.c:77-99 | an entry byte by byte: captured, not hand-made, and complete exactly for NDEF, DESFire, Ultralight, EMV and Aliro |
| `StoreBytes.EntryPlace` | src/nfc/store/nfc_store.c:449-487 | where the entry of each service stands |
| `StoreBytes.SaveIff` | src/nfc/store/nfc_store.c:449-498 | a blob is produced exactly when no callback fails and the entries fit, and the two errors are told apart |
| `StoreBytes.EnvelopeBytes` | src/nfc/store/nfc_store.c:128-156 | the envelope byte by byte |
| `StoreBytes.EnvelopeDivides` | src/nfc/store/nfc_store.c:143-156 | its checksum is the remainder of the division |
| `StoreBytes.AcceptedIff` | src/nfc/store/nfc_store.c:225-261 | exactly the envelopes of version 1 or 2 with the right length and checksum are accepted |
| `StoreBytes.ItemsHanded` | src/nfc/store/nfc_store.c:569-657 | any list of entries, in either version and with any flags, is handed out in order to the first service with each identifier |
| `StoreBytes.TornHanded` | src/nfc/store/nfc_store.c:611-633 | a payload that breaks off is corrupt, but what came before has been handed out |
| `Store.LoadSaved` | src/nfc/store/nfc_store.c:569-657 | with distinct ids, loading a saved blob hands each service exactly its own body, in order |
| `Store.BodiesAre` | src/nfc/store/nfc_store.c:419-512 | a service is handed something exactly when it serialised and can deserialise, and then its own body |
| `Store.MapBounded` | src/nfc/store/nfc_store_ram.c:23-50 | the slots hold a map with as many entries as occupied slots |
| `Store.RamSlots.FindTag` | src/nfc/store/nfc_store_ram.c:30-39 | finds the slot of a tag exactly when the map has it |
| `Store.RamSlots.SaveCb` | src/nfc/store/nfc_store_ram.c:65-104 | updates the map at the tag; fails, changing nothing, exactly for a bad tag, a blob too long or no room |
| `Store.RamSlots.LoadCb` | src/nfc/store/nfc_store_ram.c:106-137 | returns what the map holds if it fits |
| `Store.CardStore.SaveCards` | src/nfc/store/nfc_store.c:419-512 | stores the envelope under the tag; when anything fails no slot changes |
| `Store.CardStore.LoadCards` | src/nfc/store/nfc_store.c:569-657 | hands out what the blob under the tag holds, also past a service that refuses, and succeeds exactly when the blob is sound and every service takes its body |
| `Store.CardStore.RoundTrip` | src/nfc/store/nfc_store.c:419-657 | saving then loading through the backend delivers every body to its service, with the result that follows from what they say |
| `Nfct.Partition` | src/nfc/hal/nfc_transport_nrfx.c:93-220 | in every interleaving each pool buffer is in exactly one place: free, current, queue, handed over or being released |
| `Nfct.Refines` | src/nfc/hal/nfc_transport_nrfx.c:123-220 | in every interleaving deliveries, queue and 6700 answers are those of a machine that judges whole groups |
| `Nfct.GroupFate` | src/nfc/hal/nfc_transport_nrfx.c:123-185 | a group cut up in any way is queued as its concatenation if it fits, answered 6700 once if not, and passed over in silence if no buffer was free |
| `Nfct.LostInSilence` | src/nfc/hal/nfc_transport_nrfx.c:123-185 | for any pool and buffer size, a run after which a group too long for any buffer gets neither a delivery nor a 6700 |
| `Nfct.Transport.HalOnFragment` | src/nfc/hal/nfc_transport_nrfx.c:123-185 | one fragment with the whole new state |
| `Nfct.Transport.OnField` | src/nfc/hal/nfc_transport_nrfx.c:93-105 | a field event discards the group in progress |
| `Nfct.Transport.WorkerTake` | src/nfc/hal/nfc_transport_nrfx.c:205-220 | one buffer off the queue, in order |
| `Nfct.Transport.Released` | src/nfc/hal/nfc_transport_nrfx.c:205-220 | the consumer's last reference gone, the buffer is free again |
| `Nfct.Transport.Purge` | src/nfc/hal/nfc_transport_nrfx.c:482-489 | stopping gives all queued buffers back |
| `Pipeline.WorkerTurn` | src/nfc/hal/nfc_transport_nrfx.c:205-220 | one turn of the worker with the stack behind it: the buffer taken off the queue is back in the pool and has had exactly one response |
| `Pipeline.TransportAlone` | src/nfc/hal/nfc_transport_nrfx.c:93-220 | with the stack attached the transport goes through the states it would on its own |
| `Pipeline.RunAnswered` | src/nfc/hal/nfc_transport_nrfx.c:123-220 | in every interleaving of fragments, field events, worker turns and registrations there are as many responses as deliveries and refused groups, a 6700 for each of the latter, all of 2 to 255 bytes, and no buffer is lost |
| `Aliro.DoneNeedsBoth` | src/nfc/protocols/aliro/aliro_listener.c:34-225 | in every interleaving DONE implies an AUTH1 with the expected signature and later an EXCHANGE with the expected payload since the last reset |
| `Aliro.NotesTrue` | src/nfc/protocols/aliro/aliro_listener.c:147-211 | what the bystander noted really was in the current session |
| `Aliro.GrantNeedsBoth` | src/nfc/protocols/aliro/aliro_listener.c:86-115 | the response that grants access is only sent after both, in every interleaving |
| `Aliro.SuccessIff` | src/nfc/protocols/aliro/aliro_listener.c:43-145 | each response of success is sent exactly when the session moves on by that step |
| `Aliro.SuccessBytes` | src/nfc/protocols/aliro/aliro_vectors.h:39-108 | the four responses byte by byte |
| `Aliro.ProofBytes` | src/nfc/protocols/aliro/aliro_vectors.h:22-30 | the two proofs byte by byte |
| `Aliro.SelectionAnswered` | src/nfc/protocols/aliro/aliro_listener.c:124-145 | which AID opens a session and how the others are refused |
| `Aliro.WorkRefuses` | src/nfc/protocols/aliro/aliro_listener.c:43-122 | what the deferred work says when it refuses |
| `Aliro.CommandRefused` | src/nfc/protocols/aliro/aliro_listener.c:147-211 | what a command that starts nothing is told, and that it ends the session |
| `Aliro.BookSessionDone` | src/nfc/protocols/aliro/aliro_listener.c:43-211 | a session by the book reaches DONE and is sent that response |
| `Aliro.ErrorStays` | src/nfc/protocols/aliro/aliro_listener.c:34-225 | ERROR is left only by a reset |
| `Aliro.AdvancedExcused` | src/nfc/protocols/aliro/aliro_listener.c:34-211 | a session is past AUTH0 only if an AUTH0 came in it or work was queued when it began |
| `Aliro.StaleSessionIff` | src/nfc/protocols/aliro/aliro_listener.c:34-211 | a session without AUTH0 gets past it at some point exactly when it was opened with the expedited AID while work was queued and that work runs before any command |
| `Aliro.StaleRun` | src/nfc/protocols/aliro/aliro_listener.c:34-63 | such a run |
| `Aliro.AnswersCounted` | src/nfc/protocols/aliro/aliro_listener.c:27-211 | in every interleaving selections and commands are as many as responses, plus one if work is queued, plus the commands whose work merged with work already queued |
| `Aliro.DrainedNeverMerges` | src/nfc/protocols/aliro/aliro_listener.c:34-211 | none merges if every reset finds the queue empty |
| `Aliro.MergedRun` | src/nfc/protocols/aliro/aliro_listener.c:34-211 | a run of four requests and three responses |
| `Aliro.Listener.CryptoHandler` | src/nfc/protocols/aliro/aliro_listener.c:43-122 | the deferred work with the response and the whole new state |
| `Aliro.Listener.HandleApdu` | src/nfc/protocols/aliro/aliro_listener.c:147-211 | a command with the response, if any, and the whole new state |
| `Aliro.Listener.OnSelect` | src/nfc/protocols/aliro/aliro_listener.c:124-145 | a selection resets, is answered by AID and opens a session for the expedited one only |

## Left out

- Shell commands, logging, statistics counters, session validity checks, timeouts and driver calls: input and output.
- Random numbers are parameters of the operations that draw them; the CRYPTO1 nonce of the card is fixed by its state as in the source.
- Null checks and initialisation flags other than those of the Classic listener and the assembler: every object of the model exists.
- Classic.ReadCard: says nothing about a sector with another key that happens to accept the frame built with the default key.
- Classic bit masks are kept as sets of numbers, and the number of blocks is the configured maximum of 256.
- The stored layout of a Classic image is not modelled; the listener starts from the data.
- `ultralight_extract_ndef` and the Type 4 adapter of Ultralight: what it returns refers to a local buffer, whose lifetime is outside a model of values.
- `ultralight_poller_identify_type` and the reading of version, signature, counters and tearing flags are not modelled; the reader starts from the type they lead to.
- UltralightImage.Save: the counts of counters and tearing flags are within the array sizes, as the data type has it; the source does not check them.
- Page and block tables are sequences that the methods reassign, not C arrays; nothing in the source aliases them.
- Fips46: the DES key parity bits are ignored by the standard's own tables, so no check of them is stated.
- Stack.Device.OnBuffer: the EMV and Aliro services are not behind this router; Aliro answers later, from the work queue, and is modelled on its own.
- DesfireCard.Listener.CmdReadFrom: what lies behind a file in memory is a parameter of the card.
- DesfireCard.Listener.Handle: the pending file identifier is only ever written, so it has no field.
- Desfire.RoundTrip: of the settings union only the first word is modelled; the rest is not stored and comes back zero.
- Store.CardStore.LoadCards: the verdict of a service on its body is a parameter; the check that the stack is stopped is left out.
- Store.LoadSaved: the blob limit is the configured range of 512 to 16384 bytes, under which the 16-bit length field cannot overflow.
- Nfct.Partition: the interrupt handler and a field event are one step each; a stop is three, so that interrupts can fall between them.
- Aliro.Listener.HandleApdu: only the build that checks against fixed test vectors is modelled; a failure of the transport to send is not.
- EMV, FeliCa and ISO 15693 listeners and readers other than their CRCs, the Aliro reader and image, and the reader engine are not modelled.
