/** The data the service registry exchanges (IServiceRegistry.cs).  A
    reference that may be null is an Option. */
module RegistryTypes {
  import opened Common

  datatype EventType = Sync | Change | Delete

  /** The registry configuration: the comma-separated etcd endpoints,
      whether to use TLS, and the key prefixes to listen to. */
  datatype RegistryConfig = RegistryConfig(connectionString: Option<string>, isSecure: bool, prefixs: Option<seq<string>>)

  /** A cached key/value with its etcd version. */
  datatype ServiceContent = ServiceContent(key: string, value: string, version: int)

  /** What a listener receives. */
  datatype EventData = EventData(eventType: EventType, values: seq<ServiceContent>)

  /** A listener, identified by its id, with the prefixes it listens to (a
      null or empty prefix list means it listens to nothing). */
  datatype Listener = Listener(id: nat, prefixes: Option<seq<string>>)

  /** One OnEvent call made on a listener. */
  datatype Notification = Notification(listener: Listener, data: EventData)
}
