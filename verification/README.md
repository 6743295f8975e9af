# JerseyCSV core in Dafny

A functional model of the CSV serializer of JerseyCSV. It covers four parts:

- the writer (`PojoToCsvSerializer`), which turns an object graph into CSV rows. It has a plain mode and an Excel mode; Excel mode prefixes fields with `=`;
- the mapping registry (`CsvMapperConfig`). It resolves a class to a column mapping, or to null, which means "write `toString()`". It caches what it resolves;
- the mapping data model (`PojoAttributeMapping`, `PojoCsvAttribute`);
- the format filter (`AcceptsMimeTypeSetterFilter`). It picks the `Accept` MIME type from the `format` query parameter or the path extension, and cuts a used extension off the request path.

Modules, one per file:

| file | module | models |
|---|---|---|
| `wrappers.dfy` | `Wrappers` | `Option`, `Result`, and the Java exceptions that escape (`NullPointer`, `IndexOutOfBounds`, `StackOverflow`) |
| `text.dfy` | `Text` | quote doubling, joining, `lastIndexOf`, ASCII case mapping, capitalisation |
| `classes.dfy` | `Classes` | reflection as a table: subtypes, component types, primitives, declared and public methods |
| `mappings.dfy` | `Mappings` | `PojoCsvAttribute` (a `Nested` group or a `Leaf` column) and `PojoAttributeMapping` |
| `mapper_config.dfy` | `MapperConfig` | `CsvMapperConfig`: the policy, the cache (a map plus its iteration order), `getAttributeMapping`, `getDefaultPojoMapping`, `needsToString` |
| `getters.dfy` | `Getters` | `prepareGetters` |
| `quoting.dfy` | `Quoting` | `writeQuoted`, `write`, `writeRaw`, plus a field reader used as their inverse |
| `headers.dfy` | `HeaderWriter` | `writeHeaders(stream, mapping, div)` |
| `values.dfy` | `Values` | runtime values and `IterableArray` |
| `writer.dfy` | `Writer` | `writeContent`, `writeHeaders(obj, stream)`, `serialize` |
| `mime_filter.dfy` | `MimeFilter` | `getExtension` and the decision inside `filter` |
| `scenario.dfy` | `Scenario` | the `Person` mapping that `CsvObjectMapperProvider` registers, and what `serialize` writes for a person with headers on, as the provider configures it, or off |

Every operation returns what it writes as a `string`, along with the registry cache after it. An exception that escapes becomes `Err`. The resolution recursion between `getAttributeMapping` and `getDefaultPojoMapping` carries a `fuel` bound. Running out of fuel is the `StackOverflow` the source hits on a cyclic class graph. `CyclicClassOverflows` shows that every amount of fuel runs out on such a graph.

Behaviour of the code that the model keeps as written, each shown by a lemma:

- With POJO default on, a class listed in `toStringClasses` still gets a default mapping built and cached (`CsvMapperConfig.java:67-76`). See `MapperConfig.ToStringClassStillMapped`.
- The container test at `CsvMapperConfig.java:83` is `aClass.isAssignableFrom(Collection.class)`, the reverse of an "is a collection" test. `MapperConfig.IsContainer` states it that way.
- The registry iterates its cache in order and answers with the first supertype entry it meets. Resolving the same class twice can therefore give two different mappings. See `MapperConfig.SecondResolveMeetsSupertype`.
- `write` adds the Excel `=` even when the text has a comma; `writeQuoted` does not (`PojoToCsvSerializer.java:152`, `:182`). See `Quoting.ExcelWritersDifferOnComma`.
- Headers go through `writeQuoted`, so in Excel mode they get the `=` too. See `HeaderWriter.ExcelHeaderCell`.
- An empty first column group makes the header line start with a comma. See `HeaderWriter.EmptyFirstGroupLeadsWithComma`.
- A null nested object writes one separator fewer than the top-level specs of its mapping, not one fewer than its leaf columns. See `Writer.NullFillCountsTopLevelSpecs`.
- A null value written against a null mapping throws (`PojoToCsvSerializer.java:211`). See `Writer.NullLeafValueThrows`.
- A getter that throws is swallowed. After it, the separator is not advanced and the quote flag is not restored. See `Writer.FailedFirstCellShiftsColumns` and `Writer.QuoteRestored`.
- `getExtension` reports a one-character extension as the empty text. A format table with an entry for `""` would then cut one character too few. See `MimeFilter.OneCharacterExtensionCutsShort`.

## Model

| member | source | states |
|---|---|---|
| `Text.Escape` | src/main/java/com/test/rest/csv/PojoToCsvSerializer.java:158 | each double quote is doubled: the length grows by the number of quotes, and a text without quotes is unchanged |
| `Text.UnescapeEscape` | src/main/java/com/test/rest/csv/PojoToCsvSerializer.java:158 | un-doubling the quotes of an escaped text gives the original text back |
| `Text.LastIndexOf` | src/main/java/com/test/rest/csv/AcceptsMimeTypeSetterFilter.java:52 | -1 exactly when the character is absent; otherwise the index holds the character and no later index does |
| `Text.Capitalize` | src/main/java/com/test/rest/csv/PojoToCsvSerializer.java:106 | throws exactly on the empty name; otherwise only the first character changes: a lower-case ASCII letter becomes the upper-case letter 32 code points below it, and any other character is kept |
| `Text.UpperLower` | src/main/java/com/test/rest/csv/CsvMapperConfig.java:255 | capitalising the lower-cased initial of a property name restores the method's upper-case letter |
| `Classes.FindMethod` | src/main/java/com/test/rest/csv/PojoToCsvSerializer.java:110 | `getMethod(name)` finds a zero-argument method of that name from the class's public methods, and fails exactly when there is none |
| `Classes.FindMethodAt` | src/main/java/com/test/rest/csv/PojoToCsvSerializer.java:110 | a zero-argument method is the one found for its name when no method listed before it has that name |
| `Mappings.NestedAttribute` | src/main/java/com/test/rest/csv/PojoCsvAttribute.java:28-32 | the nested constructor: names is the one property, no header, the given child mapping, no getter plan |
| `Mappings.LeafAttribute` | src/main/java/com/test/rest/csv/PojoCsvAttribute.java:34-38 | the leaf constructor: the given header and names, no child mapping, no getter plan |
| `Mappings.HeaderOrChild` | src/main/java/com/test/rest/csv/PojoCsvAttribute.java:28-38 | no spec has both a header and a child mapping |
| `Mappings.SetGetter` | src/main/java/com/test/rest/csv/PojoCsvAttribute.java:46-59 | `getGetter` returns the plan last set; header, names, child and kind are unchanged |
| `Mappings.EmptyMapping` | src/main/java/com/test/rest/csv/PojoAttributeMapping.java:12-14 | a new mapping has no specs |
| `Mappings.Add` | src/main/java/com/test/rest/csv/PojoAttributeMapping.java:16-18 | appends: one spec more, the earlier specs unchanged, the new one last |
| `Mappings.AddLeaf` | src/main/java/com/test/rest/csv/PojoAttributeMapping.java:20-22 | appends a leaf with exactly the given header and names, no child and no plan; the earlier specs are unchanged |
| `Mappings.SetAttributes` | src/main/java/com/test/rest/csv/PojoAttributeMapping.java:28-30 | `getPojoAttributes` afterwards returns exactly the list that was set |
| `Mappings.AddAllKeepsOrder` | src/main/java/com/test/rest/csv/PojoAttributeMapping.java:16-22 | adding specs one by one yields the old specs followed by the new ones in order: nothing sorts, drops or merges |
| `Mappings.ListText` | src/main/java/com/test/rest/csv/PojoCsvAttribute.java:97 | a list rendering starts with `[` and ends with `]`; `Mappings.ListTextJoins` states what lies between |
| `Mappings.ListTextJoins` | src/main/java/com/test/rest/csv/PojoCsvAttribute.java:97 | a list renders as its elements in order, joined by `", "`, between square brackets |
| `Mappings.MappingText` | src/main/java/com/test/rest/csv/PojoAttributeMapping.java:33-37 | a mapping renders as `{[` … `]}`; `Mappings.MappingTextJoins` states what lies between |
| `Mappings.AttrsText` | src/main/java/com/test/rest/csv/PojoAttributeMapping.java:33-37 | one rendering per spec from the given position on, entry `k` being the rendering of spec `i + k` |
| `Mappings.MappingTextJoins` | src/main/java/com/test/rest/csv/PojoAttributeMapping.java:33-37 | a mapping renders as the renderings of its specs, in order, joined by `", "` inside `{[` and `]}` |
| `Mappings.AttributeText` | src/main/java/com/test/rest/csv/PojoCsvAttribute.java:94-101 | a spec renders as `{` … `}`; `Mappings.AttributeTextParts` states its parts |
| `Mappings.AttributeTextParts` | src/main/java/com/test/rest/csv/PojoCsvAttribute.java:94-101 | a spec renders as `{`, its names joined by `", "` in brackets, `:`, its header (empty when null), its child mapping's rendering (empty when null), `}` |
| `Mappings.RenderedExamples` | src/main/java/com/test/rest/csv/PojoCsvAttribute.java:94-101 | a leaf headed `Name` over `first` and `last` renders `{[first, last]:Name}`, and an empty mapping `{[]}` |
| `Mappings.NullChildPrintsLikeEmptyHeader` | src/main/java/com/test/rest/csv/PojoCsvAttribute.java:94-101 | the rendering is not injective: a nested spec with a null child prints like a leaf with an empty header |
| `MapperConfig.EmptyCache` | src/main/java/com/test/rest/csv/CsvMapperConfig.java:24-26 | the registry starts with no entries |
| `MapperConfig.Put` | src/main/java/com/test/rest/csv/CsvMapperConfig.java:102 | one entry is set or overwritten, and the iteration order still lists exactly the keys |
| `MapperConfig.SetAttributeMapping` | src/main/java/com/test/rest/csv/CsvMapperConfig.java:114-116 | the class's entry becomes the given mapping, one key is added at most, and every other entry is kept |
| `MapperConfig.Lookup` | src/main/java/com/test/rest/csv/CsvMapperConfig.java:50-54 | the key found is cached and assignable from the class; no answer means that no key from that position on is |
| `MapperConfig.LookupMisses` | src/main/java/com/test/rest/csv/CsvMapperConfig.java:50-54 | the scan finds nothing exactly when no cached class is a supertype of the queried class |
| `MapperConfig.PropertyName` | src/main/java/com/test/rest/csv/CsvMapperConfig.java:247-255 | `get` is tried before `is`; the name must be longer than its prefix; the property is the rest, its first character lower-cased (an upper-case ASCII letter becomes the letter 32 code points above it, anything else is kept); both failure directions are stated |
| `MapperConfig.PropertyNameOfGetter` | src/main/java/com/test/rest/csv/CsvMapperConfig.java:249-255 | the property of `getXrest` is `xrest` |
| `MapperConfig.Accessors` | src/main/java/com/test/rest/csv/CsvMapperConfig.java:243-254 | only public methods with a property name become columns |
| `MapperConfig.Resolve` | src/main/java/com/test/rest/csv/CsvMapperConfig.java:49-106 | resolution only adds cache entries, keeping every entry it was given with its value; the mapping it answers is the cached entry of a supertype of the class, or null for a class the policy does not admit for a default mapping |
| `MapperConfig.ResolveAnswers` | src/main/java/com/test/rest/csv/CsvMapperConfig.java:49-106 | in order: a cached supertype entry answers unchanged; without POJO default, a class not identical to a POJO class gives null and leaves the cache alone; a container is first cached as null, then its element class is resolved against that cache, and the container answers null with the cache the element resolution left, in which the element class has an answer; otherwise a default mapping with one column per accessor is built and cached under the class |
| `MapperConfig.DefaultAttributes` | src/main/java/com/test/rest/csv/CsvMapperConfig.java:240-272 | one column per accessor in method order: a primitive or `String` return type gives a leaf headed by the property name, any other type a nested group whose child is what resolving the return type answers (a cached supertype entry, or null for a class the policy does not admit for a default mapping); the cache only grows |
| `MapperConfig.AnySupertype` | src/main/java/com/test/rest/csv/CsvMapperConfig.java:138-144 | true exactly when some listed class is assignable from the class |
| `MapperConfig.NeedsToString` | src/main/java/com/test/rest/csv/CsvMapperConfig.java:136-158 | a string-class supertype gives true; otherwise, without POJO default, a POJO-class supertype gives false; otherwise the answer is `!pojoDefault` |
| `MapperConfig.ToStringClassStillMapped` | src/main/java/com/test/rest/csv/CsvMapperConfig.java:56-76 | with POJO default on, a listed string class is resolved to a real mapping although `needsToString` is true for it |
| `MapperConfig.ResolveMoreFuel` | src/main/java/com/test/rest/csv/CsvMapperConfig.java:94-105 | the depth bound does not steer resolution: a result reached with some fuel is the same with more |
| `MapperConfig.CyclicClassOverflows` | src/main/java/com/test/rest/csv/CsvMapperConfig.java:101-102 | a class whose getter returns its own class exhausts every depth bound, because the class is cached only after its mapping is built |
| `MapperConfig.SecondResolveMeetsSupertype` | src/main/java/com/test/rest/csv/CsvMapperConfig.java:50-54 | resolving `B` caches its supertype `A` first, so a second resolution of `B` returns `A`'s mapping |
| `Getters.GetterFor` | src/main/java/com/test/rest/csv/PojoToCsvSerializer.java:105-118 | a public `get` method of the capitalised name, else an `is` method, else the capitalised name as a literal; throws exactly on an empty name |
| `Getters.Plan` | src/main/java/com/test/rest/csv/PojoToCsvSerializer.java:103-120 | one getter per property name, in order, each the one `GetterFor` chooses; fails exactly when some name is empty |
| `Getters.Prepare` | src/main/java/com/test/rest/csv/PojoToCsvSerializer.java:94-131 | arrays and collections are left untouched; otherwise every spec keeps its kind, header and names and gets one getter per name; well-named mappings always prepare; a failure is the empty-name exception |
| `Getters.PrepareAttrs` | src/main/java/com/test/rest/csv/PojoToCsvSerializer.java:102-130 | one prepared spec per spec, in order, each keeping kind, header and names with one getter per name; it succeeds on well-named mappings |
| `Getters.PreparedAttrs` | src/main/java/com/test/rest/csv/PojoToCsvSerializer.java:102-130 | every spec prepared from position i on keeps its kind, header and names and gets one getter per name |
| `Getters.PrepareAttr` | src/main/java/com/test/rest/csv/PojoToCsvSerializer.java:103-129 | the plan holds for each name the getter `GetterFor` chooses, and kind, header and names are kept |
| `Getters.PrepareChild` | src/main/java/com/test/rest/csv/PojoToCsvSerializer.java:122-125 | a literal getter or a null child leaves the child as it is; the child of a method getter whose return type is not a container is prepared, each of its specs getting one getter per name |
| `Getters.GetterOfDefaultProperty` | src/main/java/com/test/rest/csv/PojoToCsvSerializer.java:106-110 | the property name a default mapping derives from `getX…` leads back to that same method |
| `Getters.PrepareTwice` | src/main/java/com/test/rest/csv/PojoToCsvSerializer.java:94-131 | preparing is idempotent for a fixed class |
| `Quoting.WriteQuoted` | src/main/java/com/test/rest/csv/PojoToCsvSerializer.java:147-161 | null prints `null`; otherwise the text is quoted and ends with a quote; `=` leads exactly in Excel mode when the text has no comma; the length counts the doubled quotes |
| `Quoting.Write` | src/main/java/com/test/rest/csv/PojoToCsvSerializer.java:169-194 | null prints `null`; outside Excel mode a text without quotes is written raw; otherwise it is `writeQuoted`'s text (quotes doubled, between quotes), with `=` exactly in Excel mode, which `write` adds in front even when the text holds a comma |
| `Quoting.QuotedByWriteQuoted` | src/main/java/com/test/rest/csv/PojoToCsvSerializer.java:179-190 | the quoted form `write` builds equals `writeQuoted`'s output, with an `=` in front exactly when Excel mode is on and the text holds a comma |
| `Quoting.WriteRaw` | src/main/java/com/test/rest/csv/PojoToCsvSerializer.java:163-167 | the text itself; null writes nothing |
| `Quoting.WriteQuotedReadsBack` | src/main/java/com/test/rest/csv/PojoToCsvSerializer.java:147-161 | every text written by `writeQuoted` reads back as itself, in both modes |
| `Quoting.WriteReadsBack` | src/main/java/com/test/rest/csv/PojoToCsvSerializer.java:169-194 | every text written by `write` reads back as itself, unless it is written raw and starts with `=` |
| `Quoting.ExcelWritersDifferOnComma` | src/main/java/com/test/rest/csv/PojoToCsvSerializer.java:147-194 | in Excel mode `write` equals `writeQuoted` except that it adds `=` to texts with a comma |
| `Quoting.NullWrites` | src/main/java/com/test/rest/csv/PojoToCsvSerializer.java:147-171 | null is `null` through both quoting writers and nothing through `writeRaw` |
| `HeaderWriter.Headers` | src/main/java/com/test/rest/csv/PojoToCsvSerializer.java:133-145 | the only failure is the null dereference of a spec with neither a header nor a child |
| `HeaderWriter.HeadersAreLeaves` | src/main/java/com/test/rest/csv/PojoToCsvSerializer.java:133-145 | the header text succeeds exactly when the depth-first leaf list exists, and is those leaves quoted, each preceded by a comma except a leading first leaf, which gets `div` |
| `HeaderWriter.HeaderLine` | src/main/java/com/test/rest/csv/PojoToCsvSerializer.java:133-145 | when the first column is a leaf, the header line is the quoted leaf headers, depth first, joined by single commas |
| `HeaderWriter.EmptyFirstGroupLeadsWithComma` | src/main/java/com/test/rest/csv/PojoToCsvSerializer.java:133-145 | an empty first group makes the header line start with a comma |
| `HeaderWriter.ExcelHeaderCell` | src/main/java/com/test/rest/csv/PojoToCsvSerializer.java:137-139 | in Excel mode the header `Age` is written `="Age"` |
| `Values.ClassOf` | src/main/java/com/test/rest/csv/PojoToCsvSerializer.java:220 | only null has no class |
| `Values.PropIndex` | src/main/java/com/test/rest/csv/PojoToCsvSerializer.java:287 | the first entry for the getter, or none exactly when no entry has that name |
| `Values.PropIndexAt` | src/main/java/com/test/rest/csv/PojoToCsvSerializer.java:287 | invoking a getter reads the entry at `k` when no entry before it has that getter |
| `Values.IterateArray` | src/main/java/com/test/rest/csv/PojoToCsvSerializer.java:319-350 | iterating an array yields exactly its `length` elements in index order, which is the sequence the writer reads |
| `Writer.Commas` | src/main/java/com/test/rest/csv/PojoToCsvSerializer.java:213-215 | `n` characters, all separators |
| `Writer.NullFill` | src/main/java/com/test/rest/csv/PojoToCsvSerializer.java:208-218 | a null value writes one separator fewer than its mapping has specs, and nothing else; none for an empty mapping; a null mapping throws |
| `Writer.ScalarOut` | src/main/java/com/test/rest/csv/PojoToCsvSerializer.java:249-258 | unquoted, the value's text; quoted, a string goes through `writeQuoted` (`=` exactly in Excel mode when it has no comma) and a number or boolean through `write` (always `=` in Excel mode, raw outside it unless it holds a double quote, and then `writeQuoted`'s quoted, doubled form); a quoted field reads back as the text |
| `Writer.TextOut` | src/main/java/com/test/rest/csv/PojoToCsvSerializer.java:260-267 | an object written as `toString`: unquoted, the text itself; quoted, a field ending in a quote, with `=` exactly in Excel mode when the text has no comma, that reads back as the text |
| `Writer.Content` | src/main/java/com/test/rest/csv/PojoToCsvSerializer.java:207-306 | null fills separators; scalars and `toString` objects as above; a decomposed object as `Writer.ObjectContent` states; the cache only grows |
| `Writer.ObjectContent` | src/main/java/com/test/rest/csv/PojoToCsvSerializer.java:268-304 | a decomposed object succeeds exactly when its cells do, and its text is the cells assembled; without failed cells, the cell texts joined by commas, multi-getter cells in one quote pair |
| `Writer.ContainerContent` | src/main/java/com/test/rest/csv/PojoToCsvSerializer.java:227-247 | a top-level container is one line per item; a nested one is the items joined by `", "`, in one quote pair when quoting; either fails exactly when one of its items fails |
| `Writer.Rows` | src/main/java/com/test/rest/csv/PojoToCsvSerializer.java:244-247 | one row per item, and the cache only grows |
| `Writer.NullRowThrows` | src/main/java/com/test/rest/csv/PojoToCsvSerializer.java:244-247 | a null item among the rows throws a null-pointer error when its turn comes |
| `Writer.Joined` | src/main/java/com/test/rest/csv/PojoToCsvSerializer.java:232-239 | one text per item, and the cache only grows |
| `Writer.JoinedStrings` | src/main/java/com/test/rest/csv/PojoToCsvSerializer.java:232-239 | inside a field, string items are written raw, one per item in order, with no registry lookup |
| `Writer.NestedStringsOneField` | src/main/java/com/test/rest/csv/PojoToCsvSerializer.java:227-242 | a nested list `a`, `b` written quoted is the single field `"a, b"` |
| `Writer.ItemMapping` | src/main/java/com/test/rest/csv/PojoToCsvSerializer.java:234-236 | the given mapping wins; without one the item's class is resolved; a null item then throws |
| `Writer.ObjectCells` | src/main/java/com/test/rest/csv/PojoToCsvSerializer.java:269-303 | one cell per spec, with the quote flag carried as the loop carries it; `Writer.ScalarObjectCells` states the texts |
| `Writer.GetterValues` | src/main/java/com/test/rest/csv/PojoToCsvSerializer.java:286-290 | a cell fails exactly when some method getter throws; `Writer.ScalarGetterValues` states the text |
| `Writer.ScalarGetterValues` | src/main/java/com/test/rest/csv/PojoToCsvSerializer.java:281-290 | a cell whose getters all yield strings, numbers or booleans is those values written in plan order with the cell's quote flag; it cannot fail and leaves the registry unchanged |
| `Writer.ScalarObjectCells` | src/main/java/com/test/rest/csv/PojoToCsvSerializer.java:269-303 | an object whose specs all have scalar getters writes one non-failing cell per spec holding its values, quoted by the caller's flag except inside a multi-getter spec |
| `Writer.LiteralGetterWritesItsName` | src/main/java/com/test/rest/csv/PojoToCsvSerializer.java:287-289 | a literal getter writes the literal as a string value |
| `Writer.InterleaveJoins` | src/main/java/com/test/rest/csv/PojoToCsvSerializer.java:231-239 | the `div` loop writes the items joined by `", "` |
| `Writer.AssembleJoins` | src/main/java/com/test/rest/csv/PojoToCsvSerializer.java:269-297 | without failures the cells appear in mapping order, separated by single commas, none leading or trailing, and a multi-getter cell is in one quote pair |
| `Writer.QuoteRestored` | src/main/java/com/test/rest/csv/PojoToCsvSerializer.java:281-295 | until a multi-getter spec fails, each spec writes with the caller's quote flag, which is off inside multi-getter specs; after such a failure nothing quotes |
| `Writer.FailedCellKeepsSeparator` | src/main/java/com/test/rest/csv/PojoToCsvSerializer.java:279-302 | a spec whose getter threw does not advance the separator |
| `Writer.FailedFirstCellShiftsColumns` | src/main/java/com/test/rest/csv/PojoToCsvSerializer.java:279-302 | a failing first spec moves the next value into the first column |
| `Writer.RowLinesAppend` | src/main/java/com/test/rest/csv/PojoToCsvSerializer.java:244-247 | the rows of two runs of items are the rows of each run, one after the other |
| `Writer.NullFillFlat` | src/main/java/com/test/rest/csv/PojoToCsvSerializer.java:208-218 | for a mapping of leaves, a null object fills exactly its header's columns |
| `Writer.NullFillCountsTopLevelSpecs` | src/main/java/com/test/rest/csv/PojoToCsvSerializer.java:211-215 | a mapping with a nested group of two leaves has three headers but gets one separator |
| `Writer.NullLeafValueThrows` | src/main/java/com/test/rest/csv/PojoToCsvSerializer.java:211 | a null value without a mapping throws |
| `Writer.Probe` | src/main/java/com/test/rest/csv/PojoToCsvSerializer.java:62-79 | first items of iterables are unwrapped first, then arrays; an empty container or null gives no sample, and a sample is never null or an array |
| `Writer.ProbeArray` | src/main/java/com/test/rest/csv/PojoToCsvSerializer.java:70-79 | first elements of arrays are unwrapped; an empty array or null gives no sample |
| `Writer.PrepareFor` | src/main/java/com/test/rest/csv/PojoToCsvSerializer.java:90 | a container class skips preparation; a null mapping throws; a well-named mapping prepares |
| `Writer.HeaderPhase` | src/main/java/com/test/rest/csv/PojoToCsvSerializer.java:61-92 | no sample means nothing is written; with headers on, the header line of the sample class's mapping is written, or nothing when that mapping is null |
| `Writer.HeaderLineOf` | src/main/java/com/test/rest/csv/PojoToCsvSerializer.java:86-87 | the header text followed by the line separator |
| `Writer.Serialize` | src/main/java/com/test/rest/csv/PojoToCsvSerializer.java:37-47 | with headers off: null writes nothing; otherwise the call succeeds exactly when the value's class resolves and its content is written, and the text is that content; `Writer.SerializeWithHeaders` states the headers-on case |
| `Writer.SerializeWithHeaders` | src/main/java/com/test/rest/csv/PojoToCsvSerializer.java:37-47 | with headers on, the header phase runs first and an error there is the result; null then writes only what the header phase wrote; otherwise the value is resolved against the cache the header phase left, and the text is the header text followed by the content |
| `MimeFilter.GetExtension` | src/main/java/com/test/rest/csv/AcceptsMimeTypeSetterFilter.java:49-65 | none without a dot past index 0; the empty text when the dot is second to last; otherwise the suffix after the last dot, none if it holds `/` or `\` |
| `MimeFilter.ExtensionOfAppended` | src/main/java/com/test/rest/csv/AcceptsMimeTypeSetterFilter.java:49-65 | an extension of two or more characters, without dots or separators, after a non-empty base is found again |
| `MimeFilter.Decide` | src/main/java/com/test/rest/csv/AcceptsMimeTypeSetterFilter.java:67-91 | the parameter, if present, decides the type alone and the path is kept; otherwise a known extension sets its type and the path loses exactly the extension and its dot, throwing when that is longer than the path; an unknown format changes nothing |
| `MimeFilter.StripExtension` | src/main/java/com/test/rest/csv/AcceptsMimeTypeSetterFilter.java:82-87 | `base.ext` with a known `ext` goes on as `base` |
| `MimeFilter.ParameterTakesPrecedence` | src/main/java/com/test/rest/csv/AcceptsMimeTypeSetterFilter.java:70-76 | with `format` present the path plays no part and is never rewritten |
| `MimeFilter.CsvExtension` | src/main/java/com/test/rest/csv/AcceptsMimeTypeSetterFilter.java:33-39 | with the default table, `report.csv` asks for `text/csv` and goes on as `report` |
| `MimeFilter.OneCharacterExtensionCutsShort` | src/main/java/com/test/rest/csv/AcceptsMimeTypeSetterFilter.java:53-56 | `a.c` has the empty extension, and a table entry for `""` turns the path into `a.` |
| `Scenario.AddressMapping` | src/main/java/com/test/rest/csv/CsvObjectMapperProvider.java:68-71 | the address mapping has three specs |
| `Scenario.PersonMapping` | src/main/java/com/test/rest/csv/CsvObjectMapperProvider.java:65-83 | the person mapping has four top-level specs |
| `Scenario.PersonColumns` | src/main/java/com/test/rest/csv/CsvObjectMapperProvider.java:65-83 | its columns are Street, City, State, LastName, FirstName, Age, and the first one is a leaf |
| `Scenario.PersonHeaderLine` | src/main/java/com/test/rest/csv/CsvObjectMapperProvider.java:65-83 | the person header line is those six headers quoted and joined by commas |
| `Scenario.NullPersonParts` | src/main/java/com/test/rest/csv/CsvObjectMapperProvider.java:65-83 | a null address writes `,,`; a null person writes `,,,` for its six header columns |
| `Scenario.JavaNames` | src/main/java/com/test/rest/Person.java:26-56 | the getter of each mapped property is the Java bean name (`getFirstName`, `getAddress`, …) |
| `Scenario.PersonPrepared` | src/main/java/com/test/rest/csv/PojoToCsvSerializer.java:94-131 | preparing the person mapping against `Person` gives getters `getAddress`, `getLastName`, `getFirstName`, `getAge`, and prepares the address group against the address class |
| `Scenario.PersonResolves` | src/main/java/com/test/rest/csv/CsvMapperConfig.java:49-54 | with the person mapping registered, `Person` resolves to it from the cache, and neither `Person` nor the address class is written with `toString` |
| `Scenario.PlainContent` | src/main/java/com/test/rest/csv/PojoToCsvSerializer.java:268-304 | an object whose cells are plain texts writes them joined by commas |
| `Scenario.AddressCell` | src/main/java/com/test/rest/csv/PojoToCsvSerializer.java:268-304 | an address with plain texts writes its street, city and state as three quoted fields joined by commas |
| `Scenario.PersonText` | src/main/java/com/test/rest/csv/PojoToCsvSerializer.java:268-304 | a person writes its address text, then the last and first names quoted, then the age |
| `Scenario.HeaderPhaseHit` | src/main/java/com/test/rest/csv/PojoToCsvSerializer.java:61-92 | for an object whose class hits the cache with a mapping that prepares, the header phase writes that mapping's header line and leaves the cache unchanged |
| `Scenario.SerializeHit` | src/main/java/com/test/rest/csv/PojoToCsvSerializer.java:37-47 | for an object whose class hits the cache, `serialize` writes what the header phase wrote (nothing with headers off), then the object's content |
| `Scenario.PersonHeaderPhase` | src/main/java/com/test/rest/csv/CsvObjectMapperProvider.java:51-54 | with headers on, as the provider sets them, the header phase on a person writes the six quoted headers and a newline, and leaves the registry unchanged |
| `Scenario.HeaderFields` | src/main/java/com/test/rest/csv/PojoToCsvSerializer.java:133-145 | the person header cells are `Street`, `City`, `State`, `LastName`, `FirstName`, `Age` as quoted fields, `=` first in Excel mode |
| `Scenario.PersonSerialized` | src/main/java/com/test/rest/csv/PojoToCsvSerializer.java:37-47 | serializing a person writes the header part (the header line and a newline with headers on, nothing with them off), then the address text, the names quoted and the age |
| `Scenario.PersonRow` | src/main/java/com/test/rest/csv/PojoToCsvSerializer.java:37-47 | serializing a person with an address gives the header part, then street, city, state, last name, first name and age; the age is raw in plain mode and `="…"` in Excel mode |
| `Scenario.NullAddressRow` | src/main/java/com/test/rest/csv/PojoToCsvSerializer.java:208-218 | a person without an address writes the header part, then `,,,` before the names and the age |
| `Scenario.SampleRow` | src/main/java/com/test/rest/MyRegistry.java:22 | Joe Doe's data line, headers off, is `"101 1st str","San Francisco","CA","Doe","Joe",30` |
| `Scenario.SampleExcelRow` | src/main/java/com/test/rest/MyRegistry.java:22 | in Excel mode every field of Joe Doe's data line, the age included, is `=` and a quoted text |
| `Scenario.SampleNullAddressRow` | src/main/java/com/test/rest/MyRegistry.java:21 | Bob Homeless, aged 60 and without an address, has the data line `,,,"Homeless","Bob",60` |
| `Scenario.SampleProviderRow` | src/main/java/com/test/rest/csv/CsvObjectMapperProvider.java:51-57 | with the provider's headers on, in plain mode, Bob is written as the person header line, a newline, and `,,,"Homeless","Bob",60` |

## Left out

- Output streams, `getBytes()` with the platform charset, and `IOException` are left out. Output is a `string`, and the line separator is a parameter (`Env.newline`).
- `toString()` of arbitrary objects and the rendering of numbers are left out. Each value carries its text (`Num.digits`, `Obj.text`), so floating point is not modelled.
- Java reflection is replaced by the `Universe` tables. `TypeVariable.getClass()` at `CsvMapperConfig.java:90` is a table entry, `typeVariableClass`.
- A getter that throws (`IllegalAccessException`, `InvocationTargetException`) is modelled as a getter name missing from the object's property list. The exception text is not modelled.
- `IllegalArgumentException` from `Method.invoke` on an object of an unrelated class is not modelled. A getter is looked up by name in the object's property list.
- Getter plans are not persisted across calls. The source writes them into shared mutable specs. The model prepares them in the header phase and lazily again in `writeContent` (`PojoToCsvSerializer.java:274-277`), against the object's own class. A mapping shared between classes is therefore not mutated for every user.
- When an exception escapes, the text already written to the stream is discarded: `Err` carries no partial output.
- The cache's `HashMap` iteration order is unspecified; the model fixes it to insertion order. There is no concurrency.
- Case mapping is ASCII only (`UpperChar`, `LowerChar`). Java's locale-aware `toUpperCase` and `Character.toLowerCase` on other letters are not modelled.
- The JAX-RS plumbing is not part of this model: `CsvObjectMapperProvider.writeTo`, `MyRegistry`, and the `ContainerRequestContext`/`UriBuilder` calls of the filter. The filter's decision is returned as a value. Only the `Person` mapping of the provider is used, as a scenario. The registry's array of three persons is not stated as one output; the output for each person is stated on its own.
- `MapperConfig.Resolve`: a resolution deeper than `fuel` is reported as `StackOverflow`. The actual stack depth of the source is not modelled.
- `Writer.Joined`: the ensures states the count of texts, not each text in general. Each text depends on the threaded cache; `Writer.JoinedStrings` states the texts for items that are strings.
- `Writer.Rows`: the ensures states the count of rows, not each row's text. Each text depends on the cache threaded through the earlier rows.
- `Writer.NullRowThrows`: states the throw at the null item itself. That a null item anywhere among the rows makes the whole write throw, once the rows before it succeed, is not stated as a lemma.
- `Writer.ObjectCells`: the ensures state the number of cells and the quote flag. The cell texts are stated by `Writer.ScalarObjectCells` when every getter yields a string, number or boolean, and for the `Person` mapping with its nested address by the `Scenario` lemmas. A general formula for cells of nested objects, whose text depends on the cache threaded through earlier cells, is not stated.
- `Writer.GetterValues`: the ensures state only when a cell fails. Its text is stated by `Writer.ScalarGetterValues` for getters that yield strings, numbers or booleans.
- `Mappings.SetAttributes`: the spec list is a `seq`, which cannot be null. `setPojoAttributes(null)` is therefore not modelled: neither the null-list branch of `PojoToCsvSerializer.java:212`, which writes nothing for a null value, nor `toString()` printing `{null}` for such a mapping.
