/**
 * The persisted form of a target holder: a keyed container written field by
 * field. Dependencies are stored as names only, and reading a holder back
 * never rebuilds them.
 */
module HolderCoding {
  import opened Wrappers
  import opened ProductTypes
  import opened ChecksumHolders

  datatype CodingKey = NameKey | ProductNameKey | ProductTypeKey | ChecksumKey | FilesKey | DependenciesKey

  /** The values a container entry can hold. */
  datatype EncodedValue<C> =
    | Text(text: string)
    | Digest(digest: C)
    | FileList(files: seq<FileChecksumHolder<C>>)
    | NameList(names: seq<string>)

  /** The decoding failures of a keyed container. */
  datatype DecodingError = KeyNotFound(key: CodingKey) | TypeMismatch(key: CodingKey) | DataCorrupted(key: CodingKey)

  /** A keyed encoding container: writing a key replaces what was stored under it. */
  class KeyedEncodingContainer<C> {
    var entries: map<CodingKey, EncodedValue<C>>

    constructor ()
      ensures entries == map[]
    {
      entries := map[];
    }

    method Encode(value: EncodedValue<C>, key: CodingKey)
      modifies this
      ensures entries == old(entries)[key := value]
    {
      entries := entries[key := value];
    }
  }

  /**
   * What `encode(to:)` writes, as written (lines 55-64): name, product name,
   * checksum, files and the dependencies' names. The product type is not written.
   */
  function EncodedFieldsAsWritten<C>(h: TargetChecksumHolder<C>): (m: map<CodingKey, EncodedValue<C>>)
    ensures m.Keys == {NameKey, ProductNameKey, ChecksumKey, FilesKey, DependenciesKey}
    ensures m[DependenciesKey] == NameList(DependencyNames(h))
  {
    map[NameKey := Text(h.name),
        ProductNameKey := Text(h.productName),
        ChecksumKey := Digest(h.checksum),
        FilesKey := FileList(h.files),
        DependenciesKey := NameList(DependencyNames(h))]
  }

  /** The encoding with the product type written as its raw value, which the decoder reads back. */
  function EncodedFields<C>(h: TargetChecksumHolder<C>): (m: map<CodingKey, EncodedValue<C>>)
    ensures m.Keys == {NameKey, ProductNameKey, ProductTypeKey, ChecksumKey, FilesKey, DependenciesKey}
    ensures m[DependenciesKey] == NameList(DependencyNames(h))
  {
    EncodedFieldsAsWritten(h)[ProductTypeKey := Text(RawValue(h.productType))]
  }

  /** `encode(to:)` as written: five writes into the container, the product type skipped. */
  method EncodeAsWritten<C>(h: TargetChecksumHolder<C>, container: KeyedEncodingContainer<C>)
    modifies container
    ensures container.entries == old(container.entries) + EncodedFieldsAsWritten(h)
  {
    ghost var start := container.entries;
    container.Encode(Text(h.name), NameKey);
    container.Encode(Text(h.productName), ProductNameKey);
    container.Encode(Digest(h.checksum), ChecksumKey);
    container.Encode(FileList(h.files), FilesKey);
    var dependenciesNames := DependencyNames(h);
    container.Encode(NameList(dependenciesNames), DependenciesKey);
    EncodedFieldsAsWrittenWrites(start, h);
  }

  /** The five writes of `encode(to:)` as written add exactly the fields it encodes. */
  lemma EncodedFieldsAsWrittenWrites<C>(start: map<CodingKey, EncodedValue<C>>, h: TargetChecksumHolder<C>)
    ensures start[NameKey := Text(h.name)][ProductNameKey := Text(h.productName)][ChecksumKey := Digest(h.checksum)]
      [FilesKey := FileList(h.files)][DependenciesKey := NameList(DependencyNames(h))]
      == start + EncodedFieldsAsWritten(h)
  {
  }

  /** `encode(to:)` with the product type written too. */
  method Encode<C>(h: TargetChecksumHolder<C>, container: KeyedEncodingContainer<C>)
    modifies container
    ensures container.entries == old(container.entries) + EncodedFields(h)
  {
    ghost var start := container.entries;
    container.Encode(Text(h.name), NameKey);
    container.Encode(Text(h.productName), ProductNameKey);
    container.Encode(Text(RawValue(h.productType)), ProductTypeKey);
    container.Encode(Digest(h.checksum), ChecksumKey);
    container.Encode(FileList(h.files), FilesKey);
    var dependenciesNames := DependencyNames(h);
    container.Encode(NameList(dependenciesNames), DependenciesKey);
    EncodedFieldsWrites(start, h);
  }

  /** The six writes of `encode(to:)`, one after the other, add exactly the encoded fields. */
  lemma EncodedFieldsWrites<C>(start: map<CodingKey, EncodedValue<C>>, h: TargetChecksumHolder<C>)
    ensures start[NameKey := Text(h.name)][ProductNameKey := Text(h.productName)]
      [ProductTypeKey := Text(RawValue(h.productType))][ChecksumKey := Digest(h.checksum)]
      [FilesKey := FileList(h.files)][DependenciesKey := NameList(DependencyNames(h))]
      == start + EncodedFields(h)
  {
  }

  function DecodeText<C>(entries: map<CodingKey, EncodedValue<C>>, key: CodingKey): Result<string, DecodingError> {
    if key !in entries then Failure(KeyNotFound(key))
    else if !entries[key].Text? then Failure(TypeMismatch(key))
    else Success(entries[key].text)
  }

  /**
   * `init(from:)` (lines 66-75): reads name, product name, product type,
   * checksum and files, in that order, the first failing read deciding the
   * error; the dependencies are left empty whatever the container holds.
   */
  function Decode<C>(entries: map<CodingKey, EncodedValue<C>>): (r: Result<TargetChecksumHolder<C>, DecodingError>)
    ensures r.Success? ==> r.value.dependencies == []
    ensures r.Success? ==> {NameKey, ProductNameKey, ProductTypeKey, ChecksumKey, FilesKey} <= entries.Keys
  {
    var name :- DecodeText(entries, NameKey);
    var productName :- DecodeText(entries, ProductNameKey);
    var productTypeName :- DecodeText(entries, ProductTypeKey);
    var productType :- match FromRawValue(productTypeName)
      case None => Failure(DataCorrupted(ProductTypeKey))
      case Some(t) => Success(t);
    var checksum :- if ChecksumKey !in entries then Failure(KeyNotFound(ChecksumKey))
      else if !entries[ChecksumKey].Digest? then Failure(TypeMismatch(ChecksumKey))
      else Success(entries[ChecksumKey].digest);
    var files :- if FilesKey !in entries then Failure(KeyNotFound(FilesKey))
      else if !entries[FilesKey].FileList? then Failure(TypeMismatch(FilesKey))
      else Success(entries[FilesKey].files);
    Success(TargetChecksumHolder(name, productName, productType, checksum, files, []))
  }

  /**
   * The source's own encoding cannot be read back: whatever the holder,
   * decoding what `encode(to:)` wrote fails on the missing product type.
   */
  lemma DecodeOfWrittenEncodingFails<C>(h: TargetChecksumHolder<C>)
    ensures Decode(EncodedFieldsAsWritten(h)) == Failure(KeyNotFound(ProductTypeKey))
  {
  }

  /**
   * With the product type written, decoding gives the holder back with
   * every field but the dependencies, which come back empty.
   */
  lemma EncodeDecodeRoundTrip<C>(h: TargetChecksumHolder<C>)
    ensures Decode(EncodedFields(h)) == Success(h.(dependencies := []))
  {
    RawValueRoundTrip(h.productType);
  }
}
