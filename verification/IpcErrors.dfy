/** The result codes of the IPC classes (framework/ipc/ipc.h). */
module IpcErrors {

  datatype IpcError =
    | Success | InvalidArgument | NotConnected | AlreadyRunning | SocketCreationFailed | BindFailed | ListenFailed
    | SendFailed | ReceiveFailed | Timeout | PeerClosed | MessageTooLarge
}
