/**
 * The platform's callback cipher (`WXBizMsgCrypt`), built once from the
 * token, the encoding AES key and the corp ID. Its signature check and
 * AES decryption are not part of this model: each entry point is an
 * uninterpreted total function from its four string arguments to a status
 * code and a plaintext, so every property below holds whatever the cipher
 * answers.
 */
module Crypto {

  /** `(ret, text)` as the cipher returns it; `status == 0` means success. */
  datatype Reply = Reply(status: int, plaintext: string)

  datatype MsgCrypt = MsgCrypt(
    /** VerifyURL(msg_signature, timestamp, nonce, echostr) */
    verifyUrl: (string, string, string, string) -> Reply,
    /** DecryptMsg(post_data, msg_signature, timestamp, nonce) */
    decryptMsg: (string, string, string, string) -> Reply)
}
