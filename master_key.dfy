/**
 * The master-key modal. On mount it looks the key up in storage and opens
 * only when none is stored; the form is shown once the warning has been
 * acknowledged; a key of six or more UTF-16 code units is stored, handed to the
 * callback and closes the modal, and nothing else closes it.
 */
module MasterKey {
  import opened JsText

  const StorageKey: string := "masterEncryptionKey"
  const MinLength: nat := 6
  const ShortKeyMessage: string := "Master key must be at least 6 characters long"

  /** A key counts as present when it is stored and non-empty (the mount
      effect tests `!existingKey`, and an empty string is falsy). */
  predicate HasStoredKey(storage: map<string, string>) {
    StorageKey in storage && storage[StorageKey] != ""
  }

  class MasterKeyModal {
    var masterKey: string
    var error: Option<string>
    var isOpen: bool
    var acknowledged: bool
    /** The browser's `localStorage`. */
    var storage: map<string, string>
    /** Every key handed to `onMasterKeySet`, in order. */
    var delivered: seq<string>
    /** Whether an `onMasterKeySet` callback was passed. */
    const hasCallback: bool

    /** A closed modal always has a key in storage, and the callback (when
        there is one) last received exactly that key. */
    ghost predicate Valid()
      reads this
    {
      (!isOpen ==> HasStoredKey(storage)) &&
      (!isOpen && hasCallback ==> |delivered| > 0 && delivered[|delivered| - 1] == storage[StorageKey]) &&
      (!hasCallback ==> delivered == [])
    }

    /** Mounting: the initial state, then the effect's storage lookup. */
    constructor (storage: map<string, string>, hasCallback: bool)
      ensures Valid()
      ensures this.storage == storage && this.hasCallback == hasCallback
      ensures masterKey == "" && error == None && !acknowledged
      ensures isOpen <==> !HasStoredKey(storage)
      ensures delivered == if HasStoredKey(storage) && hasCallback then [storage[StorageKey]] else []
    {
      masterKey := "";
      error := None;
      acknowledged := false;
      this.storage := storage;
      this.hasCallback := hasCallback;
      delivered := [];
      isOpen := false;
      new;
      if !HasStoredKey(storage) {
        isOpen := true;
      } else if hasCallback {
        delivered := [storage[StorageKey]];
      }
    }

    /** The warning checkbox. */
    method SetAcknowledged(checked: bool)
      requires Valid()
      modifies this
      ensures Valid() && acknowledged == checked
      ensures masterKey == old(masterKey) && error == old(error) && isOpen == old(isOpen)
      ensures storage == old(storage) && delivered == old(delivered)
    {
      acknowledged := checked;
    }

    /** Typing in the key field clears any error. */
    method EditKey(value: string)
      requires Valid()
      modifies this
      ensures Valid() && masterKey == value && error == None
      ensures isOpen == old(isOpen) && acknowledged == old(acknowledged)
      ensures storage == old(storage) && delivered == old(delivered)
    {
      masterKey := value;
      error := None;
    }

    /** `handleSubmit`: a key under six code units (the empty one included)
        only sets the error; a long enough one is stored, delivered and closes
        the modal. */
    method Submit()
      requires Valid()
      modifies this
      ensures Valid()
      ensures masterKey == old(masterKey) && acknowledged == old(acknowledged)
      ensures JsLength(old(masterKey)) < MinLength ==>
        error == Some(ShortKeyMessage) && isOpen == old(isOpen) &&
        storage == old(storage) && delivered == old(delivered)
      ensures JsLength(old(masterKey)) >= MinLength ==>
        !isOpen && error == old(error) &&
        storage == old(storage)[StorageKey := old(masterKey)] &&
        delivered == old(delivered) + (if hasCallback then [old(masterKey)] else [])
    {
      if masterKey == "" || JsLength(masterKey) < MinLength {
        error := Some(ShortKeyMessage);
        return;
      }
      storage := storage[StorageKey := masterKey];
      if hasCallback {
        delivered := delivered + [masterKey];
      }
      isOpen := false;
    }

    /** Outside click, Escape and the (absent) close button: the modal's
        `onClose` does nothing. */
    method RequestDismiss()
      requires Valid()
      ensures Valid()
    {
    }

    /** The key form replaces the checkbox once the warning is acknowledged;
        a closed modal shows nothing. */
    function FormShown(): (b: bool)
      reads this
      ensures b <==> isOpen && acknowledged
    {
      isOpen && acknowledged
    }

    /** The save button, on the open modal's form, is enabled only with a
        non-empty key. */
    function SubmitEnabled(): (b: bool)
      reads this
      ensures b <==> isOpen && acknowledged && masterKey != ""
      ensures b ==> FormShown()
    {
      FormShown() && masterKey != ""
    }
  }
}
