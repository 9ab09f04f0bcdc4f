# Random-access gadget of plonky2, modelled in Dafny

The random-access gadget is part of plonky2's circuit builder. It constrains a claimed value to equal the list element at an index that the witness supplies. The index is deliberately not range-checked. The gadget has three entry points:

- `random_access` works on base-field targets.
- `random_access_extension` works on degree-D extension targets.
- `random_access_padded` first pads a short list and then delegates to `random_access_extension`.

None of them returns a value. Each appends to the builder at most one `RandomAccessGate`, then a fixed, ordered list of copy constraints ("connections"). For a list of two or more items, `random_access_padded` also requests the builder's extension zero first (src/gadgets/random_access.rs:79). On the first such request this caches the zero constant and allocates one virtual target.

The model has these parts:

- `targets.dfy` (`Targets`): a `Target` is a gate wire or a virtual target. An extension target is a sequence of D targets.
- `random_access_gate.dfy` (`Gates`): the gate's parameters `(numCopies, vecSize)` and its three wire-offset functions. These are uninterpreted: a `WireLayout` value holds them. `Injective` says that no two slots of a gate share a wire.
- `circuit_builder.dfy` (`Builder`): the builder as a class. `gates` and `connections` are append-only sequences. `add_gate`, `connect`, `connect_extension` and `zero_extension` are methods. `zero_extension` returns D copies of the builder's zero constant. That constant is made as a new virtual target on first use and reused after that.
- `wiring.dfy` (`Wiring`): the connections that the gate path issues, as functions of the caller's targets. `CopyWiring` covers one copy and `ExtensionWiring` covers all D copies. The lemmas say how many connections there are, where each one sits, that only caller targets meet the new gate, and that one shared index feeds every copy.
- `random_access.dfy` (`RandomAccessGadget`): the three entry points as methods on a `CircuitBuilder`. Their `ensures` give the builder's whole new state in terms of the `Wiring` functions. The file also holds the padding exactly as coded and the padding the documentation describes.
- `random_access_test.dfy` (`RandomAccessTest`): the circuit-building part of the test, with one `random_access_extension` call per list position.

Where the doc comments and the code differ, the code wins. The doc comment of `random_access_padded` (src/gadgets/random_access.rs:66) says it pads `v` "to a given minimum length". The code resizes a short list to 8 entries whatever `min_length` is. The model follows the code and records the difference under "## Findings".

## Model

| member | source | states |
|---|---|---|
| `Builder.CircuitBuilder.constructor` | src/gadgets/random_access.rs:105 | A new builder of degree D has no gates, no connections and no zero constant. |
| `Builder.CircuitBuilder.AddGate` | src/gadgets/random_access.rs:17 | Appends the gate instance. Returns its index, which is the old gate count. Connections are unchanged. |
| `Builder.CircuitBuilder.Connect` | src/gadgets/random_access.rs:21 | Appends exactly the pair `(x, y)` to the connections. Nothing else changes. |
| `Builder.CircuitBuilder.ConnectExtension` | src/gadgets/random_access.rs:43 | Appends the D pairs `(x[c], y[c])` in coordinate order. Gates are unchanged. |
| `Builder.CircuitBuilder.Zero` | src/gadgets/random_access.rs:79 | Models the builder's `zero()`, which `zero_extension` (line 79) calls inside circuit_builder.rs; that file is not part of this model. Returns the cached zero target. If none exists, allocates exactly one new virtual target and caches it. Adds no gate and no connection. |
| `Builder.CircuitBuilder.ZeroExtension` | src/gadgets/random_access.rs:79 | Returns D coordinates that are all the zero target. Allocates at most one virtual target. Adds no gate and no connection. |
| `RandomAccessGadget.RandomAccess` | src/gadgets/random_access.rs:11-31 | With len(v) = 1: no gate; the single connection `(claimed, v[0])`; the index is never used. With len(v) ≥ 2: exactly one gate `(1, len(v))` at the old gate count, then `CopyWiring` of copy 0. Old gates and connections stay an unchanged prefix. |
| `RandomAccessGadget.RandomAccessExtension` | src/gadgets/random_access.rs:35-64 | With len(v) = 1: no gate; only `connect_extension(claimed, v[0])`. With len(v) ≥ 2: exactly one gate `(D, len(v))` at the old gate count, then `ExtensionWiring` over copies 0..D-1. The old state stays a prefix. The zero cache and virtual targets are untouched. |
| `RandomAccessGadget.RandomAccessPadded` | src/gadgets/random_access.rs:68-84 | With len(v) = 1: only `connect_extension(claimed, v[0])`; no zero is requested and no virtual target is made. With len(v) ≥ 2: the zero is requested, then one gate over `PaddedList(v, min_length, zero)` with its extension wiring. If D > 0 the zero is cached afterwards, and one virtual target is allocated exactly when none was cached before; if D = 0 the cache and the virtual-target count are unchanged. |
| `RandomAccessGadget.RandomAccessPaddedToMinLength` | src/gadgets/random_access.rs:66-84 | The corrected entry point. Same as `RandomAccessPadded`, but the gate is built over `MinLengthPaddedList`. |
| `RandomAccessGadget.Resize` | src/gadgets/random_access.rs:81 | `Vec::resize`: the result has exactly the new length. Items below both lengths are kept. Every added slot holds the fill value. |
| `RandomAccessGadget.PaddedList` | src/gadgets/random_access.rs:79-83 | As written: if len(v) ≥ min_length, the list passes unchanged. Otherwise it has length 8 whatever min_length is. When len(v) ≤ 8, the original list is its prefix and the rest is zero. When len(v) > 8, it is cut to v[..8]. |
| `RandomAccessGadget.MinLengthPaddedList` | src/gadgets/random_access.rs:66-67 | Intended padding: the length is max(len(v), min_length), v is a prefix, and every added entry is zero. |
| `RandomAccessGadget.PaddingsAgreeIff` | src/gadgets/random_access.rs:79-83 | For len(v) ≥ 2, the two paddings agree if and only if len(v) ≥ min_length or min_length = 8. |
| `RandomAccessGadget.PaddingDropsNinthItem` | src/gadgets/random_access.rs:80-81 | Counterexample: a 9-item list with min_length 10 is cut to 8 items, and its 9th item is not in the list passed on. |
| `RandomAccessGadget.PaddingFallsShortOfMinLength` | src/gadgets/random_access.rs:80-81 | Counterexample: a 2-item list with min_length 16 is padded only to 8. |
| `RandomAccessGadget.PaddedGateSeesOriginalList` | src/gadgets/random_access.rs:79-83 | For 2 ≤ len(v) ≤ 8 and len(v) < min_length: the padded gate has 8 items. List-item slot (i, c) meets coordinate c of v[i] for i < len(v), and the zero target otherwise. |
| `RandomAccessGadget.BaseWiring` | src/gadgets/random_access.rs:16-30 | The base gate path adds len(v) + 2 connections in order: `v[i] ↔ list_item(i, 0)`, then `index ↔ access_index(0)`, then `claimed ↔ claimed_element(0)`. With an injective layout, every slot meets only that partner. |
| `RandomAccessGadget.ConnectsCallerTargetsToNewGate` | src/gadgets/random_access.rs:45-63 | Every new connection joins the index, a claimed coordinate or a list coordinate to a wire of the newly added gate, and of no other gate. |
| `Builder.CoordinatePairs` | src/gadgets/random_access.rs:43 | The connections of `connect_extension(x, y)`: one per coordinate, and pair c joins `x[c]` to `y[c]`. |
| `Gates.RandomAccessGate.WireListItem` | src/gadgets/random_access.rs:21 | No contract of its own: the wire offset of list item i of a copy (also used at line 52) is the `WireLayout`'s uninterpreted offset. |
| `Gates.RandomAccessGate.WireAccessIndex` | src/gadgets/random_access.rs:25 | No contract of its own: the access-index offset of a copy (also used at line 57) is the `WireLayout`'s uninterpreted offset. |
| `Gates.RandomAccessGate.WireClaimedElement` | src/gadgets/random_access.rs:29 | No contract of its own: the claimed-element offset of a copy (also used at line 61) is the `WireLayout`'s uninterpreted offset. |
| `RandomAccessGadget.AddedGate` | src/gadgets/random_access.rs:16-17 | The gate instance `add_gate` records: a random-access gate with `numCopies` copies (1 at line 16, D at line 45) over `vecSize` = len(v) items, and no constants. |
| `Wiring.ListWiring` | src/gadgets/random_access.rs:20-22 | One connection per list item, in list order; item i meets list-item slot (i, copy) of gate g. |
| `Wiring.CopyWiring` | src/gadgets/random_access.rs:20-30 | One copy's connections: len(v) + 2 of them, the access index at position len(v) and the claimed coordinate at len(v) + 1, each on its slot of gate g. |
| `Wiring.ExtensionWiring` | src/gadgets/random_access.rs:48-63 | The connections of copies 0..D-1 in copy order: exactly D·(len(v)+2) of them. |
| `RandomAccessTest.TestWiring` | src/gadgets/random_access.rs:109-113 | The connections of the test loop's first k calls: exactly k·D·(len(v)+2) of them. |
| `Wiring.ExtensionWiringAt` | src/gadgets/random_access.rs:48-63 | The extension wiring has D·(n+2) connections. Entry k of copy c's block sits at position c·(n+2)+k. |
| `Wiring.ListItemWired` | src/gadgets/random_access.rs:49-54 | Position c·(n+2)+i joins coordinate c of v[i] to list-item slot (i, c) of the new gate. |
| `Wiring.AccessIndexWired` | src/gadgets/random_access.rs:55-58 | For every copy c, position c·(n+2)+n joins the same `access_index` to access-index slot c. |
| `Wiring.ClaimedElementWired` | src/gadgets/random_access.rs:59-62 | Position c·(n+2)+n+1 joins coordinate c of the claim to claimed-element slot c. |
| `Wiring.ExtensionWiringOnly` | src/gadgets/random_access.rs:48-63 | Every connection of the extension wiring is one of the three kinds made by some copy c < D. |
| `Wiring.SlotPartners` | src/gadgets/random_access.rs:48-63 | With an injective layout, list-item slot (i, c) meets only v[i][c]. Every access-index slot meets only the one shared index, and claimed slot c meets only claimed[c]. |
| `Wiring.BaseIsDegreeOne` | src/gadgets/random_access.rs:16-30 | The base wiring equals the extension wiring of degree 1 over the same list, viewed as degree-1 elements. |
| `RandomAccessTest.TestRandomAccessGivenLen` | src/gadgets/random_access.rs:99-113 | One gate `(D, len(v))` is added per call, len(v) gates in all. The connections are the calls' extension wirings in call order. |
| `RandomAccessTest.TestWiringContains` | src/gadgets/random_access.rs:109-113 | Every connection made by call k is among the connections of the whole loop. |
| `RandomAccessTest.EveryCallSeesWholeList` | src/gadgets/random_access.rs:106-113 | The gate of every call k receives the same list v, in every copy; in particular item k is v[k]. |
| `RandomAccessTest.EveryCallGetsItsIndex` | src/gadgets/random_access.rs:110-112 | The gate of call k receives index target k in the access-index slot of every copy. |
| `RandomAccessTest.EveryCallGetsItsClaim` | src/gadgets/random_access.rs:111-112 | The gate of call k receives coordinate c of claim k in claimed slot c. |

## Left out

- Empty list: the code only `debug_assert!`s that the list is not empty. The model makes non-emptiness a precondition of each entry point. Release-mode behaviour on an empty list is not modelled.
- The gate's constraint algebra and its concrete wire-offset arithmetic: src/gates/random_access.rs is not part of this model. The offsets are the uninterpreted functions of a `WireLayout`, passed as a parameter. The slot-partner lemmas assume it is `Injective`.
- Range checking of `access_index`: the code deliberately has none, and the model adds none.
- Satisfiability, proving and verification (`data.prove`, `verify`), and field and extension-field arithmetic. Because of these, "the claim equals the selected element" is not stated as a property of witnesses. The model states only the wiring that this property rests on.
- `constant`, `constant_extension` and `FF::rand_vec` in the test: their targets are parameters of `TestRandomAccessGivenLen`, and the calls themselves are not modelled. They change no gates and no connections, but they do allocate virtual targets, and `constant(0)` at i = 0 is the zero constant. So the ensures of `TestRandomAccessGivenLen` that leaves `virtualTargets` and `zeroConstant` unchanged describes the loop of gadget calls without those constant calls.
- `Builder.CircuitBuilder.ZeroExtension`: it models the builder's constant cache only for the value zero. The builder's general constant maps and generators are not part of this model.
- `Builder.CircuitBuilder.AddGate`: it models only the append to the gate-instance list. The registration of the gate type and its generators happens in circuit_builder.rs, which is not part of this model.
- `RandomAccessTest.TestRandomAccessGivenLen`: it requires len(v) ≥ 2, because the test only uses lengths 2 and 4. A length-1 list (len_log 0) is not covered by this member.
- Integer widths: `usize` lengths and indices are unbounded naturals. No overflow is reachable at these sizes.

## Findings

| source | as written | input that shows it | evidently intended | confidence | as-written member | corrected member |
|---|---|---|---|---|---|---|
| src/gadgets/random_access.rs:81 | `v.resize(8, zero)` whenever `v.len() < min_length` | len(v) = 9, min_length = 10: the list is cut to 8 items and the 9th is lost; len(v) = 2, min_length = 16: padded only to 8 | `v.resize(min_length, zero)`, as the doc comment at line 66 says ("pads `v` to a given minimum length") | medium, not executed | `RandomAccessGadget.PaddingDropsNinthItem` | `RandomAccessGadget.MinLengthPaddedList` |
