// Types shared by the local SSH modules: src-tauri/src/local_ssh/prepare.rs and
// the principal and binding of src-tauri/src/auth/session.rs.
module LocalSsh {
  import opened Wrappers

  datatype LocalSshError =
    | InvalidInput | Unauthenticated | BindingMismatch | VaultLocked | SshCutoff
    | InvalidMetadata | HostKeyMismatch | HostKeyRejectedByUser
    | CloudHostKeyWriteFailed | LocalKnownHostsFailed
    | ChannelFailed | TransportClosed | CommandQueueFull | Internal

  datatype NativePrincipal = NativePrincipal(tenantId: string, userId: string, subject: string)

  datatype AuthBinding = AuthBinding(principal: NativePrincipal, epoch: nat)

  // Outcome of a check that returns no value.
  datatype Check = Pass | Fail(error: LocalSshError)
}
